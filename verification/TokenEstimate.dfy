/** The self-describing token estimate of a Context Package.

    The package stores, under one of its own keys, the rounded-up weight of its
    own JSON rendering.  Weights are counted in quarter tokens: an ASCII
    character is one quarter, any other character four. */
module TokenEstimate {
  import opened Wrappers
  import opened Ordering

  const ESTIMATE_KEY := "estimated_tokens"

  /** The top-level fields of a package, each with its rendered JSON value. */
  type Fields = map<string, string>

  // ----- decimal numerals -------------------------------------------------

  function DigitCount(n: nat): (d: nat)
    ensures d >= 1
  {
    if n < 10 then 1 else 1 + DigitCount(n / 10)
  }

  function Power10(d: nat): (p: nat)
    ensures p >= 1
  {
    if d == 0 then 1 else 10 * Power10(d - 1)
  }

  function Decimal(n: nat): (s: string)
    ensures |s| == DigitCount(n)
    ensures forall i :: 0 <= i < |s| ==> '0' <= s[i] <= '9'
  {
    var digit := ('0' as int + n % 10) as char;
    if n < 10 then [digit] else Decimal(n / 10) + [digit]
  }

  // A number with d digits is exactly one in [10^(d-1), 10^d), or zero.
  lemma {:induction false} DigitCountBounds(n: nat)
    ensures n < Power10(DigitCount(n))
    ensures n > 0 ==> Power10(DigitCount(n) - 1) <= n
  {
    if n >= 10 {
      DigitCountBounds(n / 10);
    }
  }

  lemma {:induction false} DigitCountMonotone(m: nat, n: nat)
    requires m <= n
    ensures DigitCount(m) <= DigitCount(n)
  {
    if m >= 10 {
      DigitCountMonotone(m / 10, n / 10);
    }
  }

  lemma {:induction false} DigitCountBelow(n: nat, d: nat)
    requires d >= 1 && n < Power10(d)
    ensures DigitCount(n) <= d
  {
    if n >= 10 {
      DigitCountBelow(n / 10, d - 1);
    }
  }

  lemma {:induction false} PowerOutgrowsDigits(d: nat)
    ensures d < Power10(d)
  {
    if d > 0 {
      PowerOutgrowsDigits(d - 1);
    }
  }

  // ----- rendering and weight ----------------------------------------------

  function CharQuarters(c: char): nat {
    if c as int > 127 then 4 else 1
  }

  function Quarters(s: string): nat {
    if s == [] then 0 else CharQuarters(s[0]) + Quarters(s[1..])
  }

  function CeilingOfQuarters(q: nat): nat {
    (q + 3) / 4
  }

  /** The members of a JSON object in the order `keys`, comma separated. */
  function Members(keys: seq<string>, fields: Fields): string
    requires forall i :: 0 <= i < |keys| ==> keys[i] in fields
  {
    if keys == [] then ""
    else
      "\"" + keys[0] + "\":" + fields[keys[0]]
      + (if |keys| == 1 then "" else ",") + Members(keys[1..], fields)
  }

  /** `json.dumps(fields, ensure_ascii=False, separators=(",", ":"), sort_keys=True)`. */
  function Render(fields: Fields): string {
    "{" + Members(Sorted(fields.Keys), fields) + "}"
  }

  function Overwrite(fields: Fields, key: string, n: nat): Fields {
    fields[key := Decimal(n)]
  }

  function Weigh(fields: Fields): nat {
    CeilingOfQuarters(Quarters(Render(fields)))
  }

  /** What one pass of the estimating loop computes from the number `n` it stored. */
  function Reestimate(fields: Fields, n: nat): nat {
    Weigh(Overwrite(fields, ESTIMATE_KEY, n))
  }

  /** `n` describes the package that contains `n`. */
  predicate SelfDescribing(fields: Fields, n: nat) {
    n == Reestimate(fields, n)
  }

  lemma {:induction false} QuartersConcat(a: string, b: string)
    ensures Quarters(a + b) == Quarters(a) + Quarters(b)
  {
    if a == [] {
      assert a + b == b;
    } else {
      assert (a + b)[0] == a[0] && (a + b)[1..] == a[1..] + b;
      QuartersConcat(a[1..], b);
    }
  }

  lemma {:induction false} AsciiQuarters(s: string)
    requires forall i :: 0 <= i < |s| ==> s[i] as int <= 127
    ensures Quarters(s) == |s|
  {
    if s != [] {
      AsciiQuarters(s[1..]);
    }
  }

  lemma MembersStep(keys: seq<string>, fields: Fields)
    requires keys != [] && forall i :: 0 <= i < |keys| ==> keys[i] in fields
    ensures Quarters(Members(keys, fields)) ==
            Quarters("\"" + keys[0] + "\":") + Quarters(fields[keys[0]])
            + Quarters(if |keys| == 1 then "" else ",") + Quarters(Members(keys[1..], fields))
  {
    var key, value := "\"" + keys[0] + "\":", fields[keys[0]];
    var comma := if |keys| == 1 then "" else ",";
    QuartersConcat(key + value + comma, Members(keys[1..], fields));
    QuartersConcat(key + value, comma);
    QuartersConcat(key, value);
  }

  // Members that do not mention a key do not see its value.
  lemma {:induction false} MembersIgnore(keys: seq<string>, fields: Fields, key: string, value: string)
    requires forall i :: 0 <= i < |keys| ==> keys[i] in fields && keys[i] != key
    ensures Members(keys, fields[key := value]) == Members(keys, fields)
  {
    if keys != [] {
      MembersIgnore(keys[1..], fields, key, value);
    }
  }

  // Replacing one value changes the weight of the members by the weight of the value.
  lemma {:induction false} MembersWeight(keys: seq<string>, fields: Fields, key: string, value: string)
    requires key in keys
    requires forall i, j :: 0 <= i < j < |keys| ==> keys[i] != keys[j]
    requires forall i :: 0 <= i < |keys| ==> keys[i] in fields
    ensures Quarters(Members(keys, fields[key := value])) ==
            Quarters(Members(keys, fields[key := ""])) + Quarters(value)
  {
    MembersStep(keys, fields[key := value]);
    MembersStep(keys, fields[key := ""]);
    if keys[0] == key {
      MembersIgnore(keys[1..], fields, key, value);
      MembersIgnore(keys[1..], fields, key, "");
    } else {
      MembersWeight(keys[1..], fields, key, value);
    }
  }

  /** The quarters of the package without the digits of its estimate. */
  function Frame(fields: Fields): nat {
    Quarters(Render(fields[ESTIMATE_KEY := ""]))
  }

  function Step(frame: nat, n: nat): nat {
    CeilingOfQuarters(frame + DigitCount(n))
  }

  lemma RenderReplace(fields: Fields, key: string, value: string)
    requires key in fields
    ensures Quarters(Render(fields[key := value])) ==
            Quarters(Render(fields[key := ""])) + Quarters(value)
  {
    var full, empty := fields[key := value], fields[key := ""];
    assert full.Keys == fields.Keys && empty.Keys == fields.Keys;
    assert key in Sorted(fields.Keys);
    SortedIsStrict(fields.Keys);
    MembersWeight(Sorted(fields.Keys), fields, key, value);
    RenderWeight(full);
    RenderWeight(empty);
  }

  // The number stored enters the rendered weight only through how many digits it has.
  lemma ReestimateIsStep(fields: Fields, n: nat)
    requires ESTIMATE_KEY in fields
    ensures Reestimate(fields, n) == Step(Frame(fields), n)
  {
    RenderReplace(fields, ESTIMATE_KEY, Decimal(n));
    AsciiQuarters(Decimal(n));
  }

  lemma RenderWeight(fields: Fields)
    ensures Quarters(Render(fields)) == 2 + Quarters(Members(Sorted(fields.Keys), fields))
  {
    var members := Members(Sorted(fields.Keys), fields);
    QuartersConcat("{" + members, "}");
    QuartersConcat("{", members);
    assert Quarters("{") == 1 && Quarters("}") == 1;
  }

  predicate DiffersAtMostAt(a: Fields, b: Fields, key: string) {
    a.Keys == b.Keys && key in a && forall k :: k in a && k != key ==> a[k] == b[k]
  }

  lemma OverwriteAgain(a: Fields, b: Fields, key: string, n: nat)
    requires DiffersAtMostAt(a, b, key)
    ensures Overwrite(a, key, n) == Overwrite(b, key, n)
    ensures DiffersAtMostAt(Overwrite(a, key, n), b, key)
  {
  }

  // ----- the chain of estimates ---------------------------------------------

  /** The estimate after `k` passes, starting from 0. */
  function Chain(frame: nat, k: nat): nat {
    if k == 0 then 0 else Step(frame, Chain(frame, k - 1))
  }

  lemma StepMonotone(frame: nat, m: nat, n: nat)
    requires m <= n
    ensures Step(frame, m) <= Step(frame, n)
  {
    DigitCountMonotone(m, n);
  }

  // Estimates never decrease, and never pass a number that already covers its own weight.
  lemma {:induction false} ChainBelow(frame: nat, k: nat, n: nat)
    requires Step(frame, n) <= n
    ensures Chain(frame, k) <= n
  {
    if k > 0 {
      ChainBelow(frame, k - 1, n);
      StepMonotone(frame, Chain(frame, k - 1), n);
    }
  }

  // Only one digit can be gained after the first pass, so the fourth pass changes nothing.
  lemma ChainSettles(frame: nat)
    ensures Chain(frame, 4) == Chain(frame, 3)
  {
    var e1, e2, e3 := Chain(frame, 1), Chain(frame, 2), Chain(frame, 3);
    assert e2 == Step(frame, e1) && e3 == Step(frame, e2) && Chain(frame, 4) == Step(frame, e3);
    assert Chain(frame, 0) == 0 && e1 == Step(frame, Chain(frame, 0));
    DigitCountMonotone(0, e1);
    StepMonotone(frame, 0, e1);
    StepMonotone(frame, e1, e2);
    var d := DigitCount(e1);
    DigitCountBounds(e1);
    PowerOutgrowsDigits(d);
    assert e2 <= e1 + d;
    DigitCountBelow(e2, d + 1);
    assert e3 <= e2 + 1;
    if DigitCount(e2) == d + 1 {
      DigitCountBelow(e3, d + 1);
      DigitCountMonotone(e2, e3);
    } else {
      DigitCountMonotone(e1, e2);
      assert e3 == e2;
    }
  }

  lemma MovingWithinFour(frame: nat, k: nat)
    requires k <= 4
    requires k > 0 ==> Chain(frame, k) != Chain(frame, k - 1)
    ensures k < 4
  {
    if k == 4 {
      ChainSettles(frame);
    }
  }

  lemma SettledIsLeast(fields: Fields, k: nat)
    requires ESTIMATE_KEY in fields
    requires k > 0 && Chain(Frame(fields), k) == Chain(Frame(fields), k - 1)
    ensures k >= 2
    ensures SelfDescribing(fields, Chain(Frame(fields), k))
    ensures forall n: nat :: Reestimate(fields, n) <= n ==> Chain(Frame(fields), k) <= n
  {
    var frame := Frame(fields);
    ReestimateIsStep(fields, Chain(frame, k));
    assert Chain(frame, k) == Step(frame, Chain(frame, k - 1)) >= 1;
    assert k != 1 by {
      assert Chain(frame, 0) == 0;
    }
    forall n: nat | Reestimate(fields, n) <= n ensures Chain(frame, k) <= n {
      ReestimateIsStep(fields, n);
      ChainBelow(frame, k, n);
    }
  }

  // ----- every frame is that of an artifact ----------------------------------------

  function Letters(n: nat): (s: string)
    ensures |s| == n && forall i :: 0 <= i < n ==> s[i] == 'a'
  {
    if n == 0 then "" else Letters(n - 1) + "a"
  }

  /** An artifact with an estimate and one text of `n` letters. */
  function Package(n: nat): (fields: Fields)
    ensures ESTIMATE_KEY in fields
  {
    map[ESTIMATE_KEY := "", "s" := "\"" + Letters(n) + "\""]
  }

  lemma KeyQuarters(key: string)
    requires forall i :: 0 <= i < |key| ==> key[i] as int <= 127
    ensures Quarters("\"" + key + "\":") == |key| + 3
  {
    AsciiQuarters("\"" + key + "\":");
  }

  lemma TwoMembers(keys: seq<string>, fields: Fields)
    requires |keys| == 2 && keys[0] in fields && keys[1] in fields
    ensures Quarters(Members(keys, fields)) ==
            Quarters("\"" + keys[0] + "\":") + Quarters(fields[keys[0]]) + 1
            + Quarters("\"" + keys[1] + "\":") + Quarters(fields[keys[1]])
  {
    MembersStep(keys, fields);
    MembersStep(keys[1..], fields);
    assert Quarters(",") == 1;
  }

  /** What a member weighs without its comma. */
  function MemberQuarters(key: string, value: string): nat {
    Quarters("\"" + key + "\":") + Quarters(value)
  }

  lemma TwoKeysRender(fields: Fields, k: string, l: string)
    requires fields.Keys == {k, l} && k != l
    ensures Quarters(Render(fields)) == 3 + MemberQuarters(k, fields[k]) + MemberQuarters(l, fields[l])
  {
    var keys := Sorted(fields.Keys);
    SortedIsStrict(fields.Keys);
    assert |{k, l}| == 2;
    assert keys[0] in keys && keys[1] in keys && keys[0] != keys[1];
    TwoMembers(keys, fields);
    RenderWeight(fields);
  }

  lemma EstimateMember()
    ensures MemberQuarters(ESTIMATE_KEY, "") == 19
  {
    KeyQuarters(ESTIMATE_KEY);
    assert |ESTIMATE_KEY| == 16;
  }

  lemma TextMember(n: nat)
    ensures MemberQuarters("s", "\"" + Letters(n) + "\"") == n + 6
  {
    var text := "\"" + Letters(n) + "\"";
    KeyQuarters("s");
    AsciiQuarters(text);
    assert |text| == n + 2;
  }

  lemma PackageIs(n: nat)
    ensures Package(n).Keys == {ESTIMATE_KEY, "s"} && ESTIMATE_KEY != "s"
    ensures Package(n)[ESTIMATE_KEY := ""] == Package(n)
    ensures Package(n)[ESTIMATE_KEY] == "" && Package(n)["s"] == "\"" + Letters(n) + "\""
  {
    assert |ESTIMATE_KEY| == 16;
  }

  lemma PackageFrame(n: nat)
    ensures Frame(Package(n)) == 28 + n
  {
    PackageIs(n);
    TwoKeysRender(Package(n), ESTIMATE_KEY, "s");
    EstimateMember();
    TextMember(n);
  }

  lemma PackagePass(n: nat, estimate: nat)
    ensures Reestimate(Package(n), estimate) == Step(28 + n, estimate)
  {
    PackageFrame(n);
    ReestimateIsStep(Package(n), estimate);
  }

  lemma LongSteps()
    ensures Step(399995, 0) == 99999 && Step(399995, 99999) == 100000
    ensures Step(399995, 100000) == 100001 && Step(399995, 100001) == 100001
  {
  }

  // The bound on passes is exact: there is an artifact for which the passes compute 99999, 100000,
  // 100001 and 100001, so that the fourth is the first to change nothing.
  lemma FourPassesNeeded() returns (fields: Fields)
    ensures ESTIMATE_KEY in fields
    ensures Reestimate(fields, 0) == 99999 && Reestimate(fields, 99999) == 100000
    ensures Reestimate(fields, 100000) == 100001 && Reestimate(fields, 100001) == 100001
  {
    fields := Package(399967);
    PackagePass(399967, 0);
    PackagePass(399967, 99999);
    PackagePass(399967, 100000);
    PackagePass(399967, 100001);
    LongSteps();
  }

  lemma ShortSteps()
    ensures Step(394, 99) == 99 && Step(394, 100) == 100
  {
    assert DigitCount(99) == 2 && DigitCount(100) == 3;
  }

  // "Least" matters: there is an artifact that two numbers describe.
  lemma TwoSelfDescribingNumbers() returns (fields: Fields)
    ensures ESTIMATE_KEY in fields && SelfDescribing(fields, 99) && SelfDescribing(fields, 100)
  {
    fields := Package(366);
    PackagePass(366, 99);
    PackagePass(366, 100);
    ShortSteps();
  }

  // ----- the loop ------------------------------------------------------------

  class Artifact {
    var fields: Fields

    constructor (fields: Fields)
      ensures this.fields == fields
    {
      this.fields := fields;
    }

    /** Fixes the estimate in place and returns the least number describing the result. */
    method StableEstimatedTokens() returns (estimate: nat, ghost passes: nat)
      requires ESTIMATE_KEY in fields
      modifies this
      ensures fields == Overwrite(old(fields), ESTIMATE_KEY, estimate)
      ensures SelfDescribing(old(fields), estimate)
      ensures forall n: nat :: Reestimate(old(fields), n) <= n ==> estimate <= n
      ensures 2 <= passes <= 4
    {
      ghost var base, frame := fields, Frame(fields);
      var previous: int := -1;
      estimate := 0;
      passes := 0;
      while estimate != previous
        invariant passes <= 4
        invariant estimate == Chain(frame, passes)
        invariant passes == 0 ==> previous == -1
        invariant passes > 0 ==> previous == Chain(frame, passes - 1) && fields == Overwrite(base, ESTIMATE_KEY, previous)
        invariant DiffersAtMostAt(fields, base, ESTIMATE_KEY)
        decreases 4 - passes
      {
        MovingWithinFour(frame, passes);
        previous := estimate;
        OverwriteAgain(fields, base, ESTIMATE_KEY, estimate);
        fields := Overwrite(fields, ESTIMATE_KEY, estimate);
        ReestimateIsStep(base, estimate);
        estimate := Weigh(fields);
        passes := passes + 1;
      }
      SettledIsLeast(base, passes);
    }

    /** Stores the estimate and refuses a package over budget instead of truncating it.
        A package is accepted exactly when some self-describing number fits the budget. */
    method FinishPackage(tokenBudget: nat) returns (result: Result<nat, string>)
      requires ESTIMATE_KEY in fields
      modifies this
      ensures result.Ok? <==> exists n: nat :: n <= tokenBudget && SelfDescribing(old(fields), n)
      ensures result.Ok? ==>
                && fields == Overwrite(old(fields), ESTIMATE_KEY, result.value)
                && result.value == Weigh(fields)
                && forall n: nat :: SelfDescribing(old(fields), n) ==> result.value <= n
    {
      var estimate, _ := StableEstimatedTokens();
      OverwriteAgain(fields, old(fields), ESTIMATE_KEY, estimate);
      fields := Overwrite(fields, ESTIMATE_KEY, estimate);
      if estimate > tokenBudget {
        return Err("Context Package exceeds token budget; split the change group");
      }
      return Ok(estimate);
    }
  }
}
