/** What an approved edit may touch, what an edit touched, and what a passed closure says about it. */
module EditScope {
  import opened Wrappers
  import opened Ordering
  import opened Sequences
  import C = ChangeClosure

  datatype Action = Modify | Add | Delete | ReviewOnly | OtherAction

  datatype ImpactItem = ImpactItem(id: string, target: string, tests: seq<string>, action: Action)

  datatype Packet = Packet(editable: seq<string>, readOnly: seq<string>, tests: seq<string>, allowed: seq<ImpactItem>)

  datatype PacketError =
    | UnknownConstraint | NoEditableFile | NothingToReview | Overlap | UnsafePath | UnsafeGlob
    | ForbiddenPath | AddPathExists | PathMissing

  /** The confirmed report, the caller's constraints and the bound revision. */
  datatype Source = Source(
    items: seq<ImpactItem>, approved: set<string>, constrained: set<string>,
    globsSafe: bool, tracked: set<string>, safe: string -> bool, forbidden: string -> bool)

  // ----- classification -------------------------------------------------------------------

  predicate Actionable(i: ImpactItem) {
    i.action == Modify || i.action == Add || i.action == Delete
  }

  function ApprovedItems(items: seq<ImpactItem>, approved: set<string>): (r: seq<ImpactItem>)
    ensures forall i :: i in r <==> i in items && i.id in approved
  {
    if items == [] then []
    else
      var last := items[|items| - 1];
      assert items == items[..|items| - 1] + [last];
      ApprovedItems(items[..|items| - 1], approved) + if last.id in approved then [last] else []
  }

  function ActionableItems(items: seq<ImpactItem>): (r: seq<ImpactItem>)
    ensures forall i :: i in r <==> i in items && Actionable(i)
  {
    if items == [] then []
    else
      var last := items[|items| - 1];
      assert items == items[..|items| - 1] + [last];
      ActionableItems(items[..|items| - 1]) + if Actionable(last) then [last] else []
  }

  function TestsOf(items: seq<ImpactItem>): set<string> {
    set i, p | i in items && p in i.tests :: p
  }

  function TargetsOf(items: seq<ImpactItem>): set<string> {
    set i | i in items :: i.target
  }

  function ReviewTargets(items: seq<ImpactItem>): set<string> {
    set i | i in items && i.action == ReviewOnly :: i.target
  }

  function AddTargets(items: seq<ImpactItem>): set<string> {
    set i | i in items && i.action == Add :: i.target
  }

  /** The files of a packet by class, with the items behind them. */
  datatype Classes = Classes(actionable: seq<ImpactItem>, editable: set<string>, readOnly: set<string>,
                             tests: set<string>, added: set<string>)

  function Classify(s: Source): Classes {
    var approved := ApprovedItems(s.items, s.approved);
    var actionable := ActionableItems(approved);
    var tests := TestsOf(if actionable == [] then approved else actionable);
    Classes(actionable, TargetsOf(actionable) - tests, ReviewTargets(approved) - tests, tests, AddTargets(actionable))
  }

  function AllPaths(c: Classes): seq<string> {
    Sorted(c.editable) + Sorted(c.readOnly) + Sorted(c.tests)
  }

  /** The first objection to a classification, in the order they are looked for. */
  function Objection(s: Source, c: Classes, all: seq<string>): Option<PacketError> {
    if !(s.constrained <= s.approved) then Some(UnknownConstraint)
    else if c.editable == {} && c.actionable != [] then Some(NoEditableFile)
    else if c.actionable == [] && c.readOnly == {} && c.tests == {} then Some(NothingToReview)
    else if |all| != |ToSet(all)| then Some(Overlap)
    else if exists p :: p in all && !s.safe(p) then Some(UnsafePath)
    else if !s.globsSafe then Some(UnsafeGlob)
    else if exists p :: p in all && s.forbidden(p) then Some(ForbiddenPath)
    else if c.added * s.tracked != {} then Some(AddPathExists)
    else if exists p :: p in all && p !in s.tracked && p !in c.added && p !in c.tests - s.tracked then Some(PathMissing)
    else None
  }

  function BuildPacket(s: Source): Result<Packet, PacketError> {
    var c := Classify(s);
    var objection := Objection(s, c, AllPaths(c));
    if objection.Some? then Err(objection.value)
    else Ok(Packet(Sorted(c.editable), Sorted(c.readOnly), Sorted(c.tests), c.actionable))
  }

  // ----- what a packet grants ---------------------------------------------------------------

  /** Approved, and asking for a change. */
  predicate Granted(s: Source, i: ImpactItem) {
    i in s.items && i.id in s.approved && Actionable(i)
  }

  predicate Approved(s: Source, i: ImpactItem) {
    i in s.items && i.id in s.approved
  }

  ghost predicate ReviewOnlyApproval(s: Source) {
    forall i :: Approved(s, i) ==> !Actionable(i)
  }

  /** The test files of the granted items, or of every approved item when none is granted. */
  ghost predicate IsTest(s: Source, p: string) {
    exists i :: (if ReviewOnlyApproval(s) then Approved(s, i) else Granted(s, i)) && p in i.tests
  }

  ghost predicate IsEditable(s: Source, p: string) {
    !IsTest(s, p) && exists i :: Granted(s, i) && i.target == p
  }

  ghost predicate IsReadOnly(s: Source, p: string) {
    !IsTest(s, p) && exists i :: Approved(s, i) && i.action == ReviewOnly && i.target == p
  }

  ghost predicate IsAdded(s: Source, p: string) {
    exists i :: Granted(s, i) && i.action == Add && i.target == p
  }

  /** When a packet is issued, in the words of the request. */
  ghost predicate Issued(s: Source) {
    && s.constrained <= s.approved
    && (if ReviewOnlyApproval(s) then exists p :: IsReadOnly(s, p) || IsTest(s, p) else exists p :: IsEditable(s, p))
    && (forall p :: !(IsEditable(s, p) && IsReadOnly(s, p)))
    && s.globsSafe
    && (forall p :: IsEditable(s, p) || IsReadOnly(s, p) || IsTest(s, p) ==> s.safe(p) && !s.forbidden(p))
    && (forall p :: IsAdded(s, p) ==> p !in s.tracked)
    && (forall p :: IsEditable(s, p) || IsReadOnly(s, p) ==> p in s.tracked || IsAdded(s, p))
  }

  ghost predicate Describes(s: Source, c: Classes) {
    && (c.actionable == [] <==> ReviewOnlyApproval(s))
    && (forall p :: p in c.tests <==> IsTest(s, p))
    && (forall p :: p in c.editable <==> IsEditable(s, p))
    && (forall p :: p in c.readOnly <==> IsReadOnly(s, p))
    && (forall p :: p in c.added <==> IsAdded(s, p))
    && (forall i :: i in c.actionable <==> Granted(s, i))
    && c.tests !! c.editable && c.tests !! c.readOnly
  }

  lemma Classified(s: Source)
    ensures Describes(s, Classify(s))
  {
    var approved := ApprovedItems(s.items, s.approved);
    var actionable := ActionableItems(approved);
    assert forall i :: i in approved <==> Approved(s, i);
    assert forall i :: i in actionable <==> Granted(s, i);
    if actionable != [] {
      assert actionable[0] in actionable;
    }
    var c := Classify(s);
    forall p ensures p in c.tests <==> IsTest(s, p) {
    }
    forall p ensures p in c.editable <==> IsEditable(s, p) {
    }
    forall p ensures p in c.readOnly <==> IsReadOnly(s, p) {
    }
  }

  lemma UnionCount(a: set<string>, b: set<string>, c: set<string>)
    requires c !! a && c !! b
    ensures |a + b + c| == |a| + |b| + |c| <==> a !! b
  {
    assert |a + b + c| == |a + b| + |c|;
    assert |a + b| + |a * b| == |a| + |b|;
    assert |a * b| == 0 <==> a !! b;
  }

  lemma AllPathsAre(c: Classes)
    ensures ToSet(AllPaths(c)) == c.editable + c.readOnly + c.tests
    ensures |AllPaths(c)| == |c.editable| + |c.readOnly| + |c.tests|
    ensures forall p :: p in AllPaths(c) <==> p in c.editable || p in c.readOnly || p in c.tests
  {
  }

  /** The conditions of `Issued`, read off a classification. */
  predicate Clean(s: Source, c: Classes) {
    && s.constrained <= s.approved
    && (if c.actionable == [] then c.readOnly != {} || c.tests != {} else c.editable != {})
    && c.editable !! c.readOnly
    && s.globsSafe
    && (forall p :: p in c.editable + c.readOnly + c.tests ==> s.safe(p) && !s.forbidden(p))
    && c.added * s.tracked == {}
    && (forall p :: p in c.editable + c.readOnly ==> p in s.tracked || p in c.added)
  }

  lemma NoObjectionIff(s: Source, c: Classes, all: seq<string>)
    requires c.tests !! c.editable && c.tests !! c.readOnly
    requires forall p :: p in all <==> p in c.editable || p in c.readOnly || p in c.tests
    requires |all| == |ToSet(all)| <==> c.editable !! c.readOnly
    ensures Objection(s, c, all).None? <==> Clean(s, c)
  {
    var some := c.editable + c.readOnly + c.tests;
    assert forall p :: p in all <==> p in some;
    if Clean(s, c) {
      assert forall p :: p in all ==> s.safe(p) && !s.forbidden(p);
      assert forall p :: p in all && p !in s.tracked && p !in c.added ==> p in c.tests - s.tracked;
    }
    if Objection(s, c, all).None? {
      forall p | p in some ensures s.safe(p) && !s.forbidden(p) {
        assert p in all;
      }
      forall p | p in c.editable + c.readOnly ensures p in s.tracked || p in c.added {
        assert p in all && p !in c.tests;
      }
    }
  }

  lemma CleanIffIssued(s: Source, c: Classes)
    requires Describes(s, c)
    ensures Clean(s, c) <==> Issued(s)
  {
    assert c.editable != {} <==> exists p :: IsEditable(s, p);
    assert c.readOnly != {} || c.tests != {} <==> exists p :: IsReadOnly(s, p) || IsTest(s, p);
    assert c.editable !! c.readOnly <==> forall p :: !(IsEditable(s, p) && IsReadOnly(s, p)) by {
      assert forall p :: p in c.editable * c.readOnly <==> IsEditable(s, p) && IsReadOnly(s, p);
    }
    assert c.added * s.tracked == {} <==> forall p :: IsAdded(s, p) ==> p !in s.tracked by {
      assert forall p :: p in c.added * s.tracked <==> IsAdded(s, p) && p in s.tracked;
    }
  }

  lemma ObjectionIff(s: Source, c: Classes)
    requires Describes(s, c)
    ensures Objection(s, c, AllPaths(c)).None? <==> Issued(s)
  {
    UnionCount(c.editable, c.readOnly, c.tests);
    AllPathsAre(c);
    NoObjectionIff(s, c, AllPaths(c));
    CleanIffIssued(s, c);
  }

  // A packet is issued exactly under the declared conditions; the only overlap that can occur is
  // between a file to edit and a file to review.
  lemma PacketIssuedIff(s: Source)
    ensures BuildPacket(s).Ok? <==> Issued(s)
  {
    Classified(s);
    ObjectionIff(s, Classify(s));
  }

  ghost predicate Grants(s: Source, k: Packet) {
    && (forall p :: p in k.editable <==> IsEditable(s, p))
    && (forall p :: p in k.readOnly <==> IsReadOnly(s, p))
    && (forall p :: p in k.tests <==> IsTest(s, p))
    && (forall i :: i in k.allowed <==> Granted(s, i))
  }

  lemma PacketContents(s: Source)
    ensures BuildPacket(s).Ok? ==> Grants(s, BuildPacket(s).value)
  {
    Classified(s);
  }

  lemma PacketIsSorted(s: Source)
    ensures
      BuildPacket(s).Ok? ==>
        var k := BuildPacket(s).value;
        StrictlySorted(k.editable) && StrictlySorted(k.readOnly) && StrictlySorted(k.tests)
  {
    SortedIsStrict(Classify(s).editable);
    SortedIsStrict(Classify(s).readOnly);
    SortedIsStrict(Classify(s).tests);
  }

  // ----- what an edit did -----------------------------------------------------------------------

  /** Nothing is writable when no production file is: the grant is for verification only. */
  function Writable(k: Packet): seq<string> {
    if k.editable == [] then [] else Sorted(ToSet(k.editable) + ToSet(k.tests))
  }

  function OutOfScopeFiles(changed: seq<string>, writable: seq<string>): seq<string> {
    Sorted(ToSet(changed) - ToSet(writable))
  }

  function ScopeStatus(changed: seq<string>, writable: seq<string>): C.EditStatus {
    if OutOfScopeFiles(changed, writable) != [] then C.OutOfScope
    else if changed != [] then C.InScope
    else C.NoChanges
  }

  lemma ScopeStatusMeaning(changed: seq<string>, writable: seq<string>)
    ensures ScopeStatus(changed, writable) == C.OutOfScope <==> exists p :: p in changed && p !in writable
    ensures ScopeStatus(changed, writable) == C.NoChanges <==> changed == []
    ensures OutOfScopeFiles(changed, writable) == [] <==> forall p :: p in changed ==> p in writable
  {
    var outside := ToSet(changed) - ToSet(writable);
    if outside != {} {
      var p := Sorted(outside)[0];
      assert p in Sorted(outside);
    }
    if p :| p in changed && p !in writable {
      assert p in outside;
      assert p in Sorted(outside);
    }
  }

  /** The edit result was recorded against this packet. */
  predicate RecordedAgainst(e: C.EditResult, k: Packet) {
    && e.outOfScope == OutOfScopeFiles(e.changedPaths, Writable(k))
    && e.status == ScopeStatus(e.changedPaths, Writable(k))
  }

  ghost predicate MayChange(s: Source, p: string) {
    exists i :: Granted(s, i) && (p == i.target || p in i.tests)
  }

  lemma WritableMayChange(s: Source, k: Packet, p: string)
    requires Issued(s) && Grants(s, k) && p in Writable(k)
    ensures MayChange(s, p) && s.safe(p) && !s.forbidden(p) && !ReviewOnlyApproval(s)
  {
    assert k.editable[0] in k.editable;
    var e :| IsEditable(s, e);
    assert !ReviewOnlyApproval(s);
    assert p in k.editable || p in k.tests;
    if IsEditable(s, p) {
      var i :| Granted(s, i) && i.target == p;
      assert MayChange(s, p);
    } else {
      var i :| Granted(s, i) && p in i.tests;
      assert MayChange(s, p);
    }
  }

  // A packet lets nothing be written that is not a target or a test of a granted item.
  lemma WritableIsGranted(s: Source, p: string)
    ensures BuildPacket(s).Ok? && p in Writable(BuildPacket(s).value) ==> MayChange(s, p) && s.safe(p) && !s.forbidden(p)
  {
    if BuildPacket(s).Ok? && p in Writable(BuildPacket(s).value) {
      PacketIssuedIff(s);
      PacketContents(s);
      WritableMayChange(s, BuildPacket(s).value, p);
    }
  }

  lemma ChangedIsGranted(s: Source, k: Packet, changed: seq<string>)
    requires Issued(s) && Grants(s, k) && OutOfScopeFiles(changed, Writable(k)) == []
    ensures forall p :: p in changed ==> MayChange(s, p) && s.safe(p) && !s.forbidden(p)
    ensures ReviewOnlyApproval(s) ==> changed == []
  {
    ScopeStatusMeaning(changed, Writable(k));
    forall p | p in changed ensures MayChange(s, p) && s.safe(p) && !s.forbidden(p) && !ReviewOnlyApproval(s) {
      WritableMayChange(s, k, p);
    }
    if changed != [] {
      assert changed[0] in changed;
    }
  }

  /** The edit result of a closed change was recorded against the packet issued for it. */
  ghost predicate ClosedUnder(s: Source, v: C.Input) {
    BuildPacket(s).Ok? && v.edit.Some? && RecordedAgainst(v.edit.value, BuildPacket(s).value) && C.Passing(v)
  }

  /** Every path was granted by an approved item, is safe, and matches no forbidden pattern. */
  ghost predicate AllApproved(s: Source, paths: seq<string>) {
    forall p :: p in paths ==> MayChange(s, p) && s.safe(p) && !s.forbidden(p)
  }

  // From approval to closure: a closed change touched only what was approved.
  lemma PassedChangeWasApproved(s: Source, v: C.Input)
    ensures ClosedUnder(s, v) ==>
              && AllApproved(s, v.edit.value.changedPaths)
              && (v.edit.value.changedPaths == [] ==> v.verificationOnly)
              && (ReviewOnlyApproval(s) ==> v.edit.value.changedPaths == [])
  {
    if ClosedUnder(s, v) {
      var k, changed := BuildPacket(s).value, v.edit.value.changedPaths;
      PacketIssuedIff(s);
      PacketContents(s);
      ChangedIsGranted(s, k, changed);
      ScopeStatusMeaning(changed, Writable(k));
    }
  }
}
