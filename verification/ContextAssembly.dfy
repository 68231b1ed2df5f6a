/** How retrieved evidence is merged and grouped into the items of a Context Package. */
module ContextAssembly {
  import opened Wrappers
  import opened Ordering

  datatype Reason =
    | DirectChange | Acceptance | RagCandidate | CrossDocument | Related | Adjacent | Parent
  {
    function Priority(): nat {
      match this
      case DirectChange => 0
      case Acceptance => 1
      case RagCandidate => 2
      case CrossDocument => 3
      case Related => 4
      case Adjacent => 5
      case Parent => 6
    }
  }

  // ----- one reason per node -------------------------------------------------

  datatype Offer = Offer(nodeId: string, reason: Reason)

  /** `r` is the best reason offered for the node. */
  predicate IsBestReason(r: Reason, nodeId: string, offers: seq<Offer>) {
    && Offer(nodeId, r) in offers
    && forall o :: o in offers && o.nodeId == nodeId ==> r.Priority() <= o.reason.Priority()
  }

  predicate Merged(reasons: map<string, Reason>, offers: seq<Offer>) {
    && (forall o :: o in offers ==> o.nodeId in reasons)
    && forall n :: n in reasons ==> IsBestReason(reasons[n], n, offers)
  }

  class ReasonLedger {
    var reasons: map<string, Reason>

    constructor ()
      ensures reasons == map[]
      ensures Merged(reasons, [])
    {
      reasons := map[];
    }

    method SetReason(nodeId: string, reason: Reason, ghost offers: seq<Offer>)
      requires Merged(reasons, offers)
      modifies this
      ensures Merged(reasons, offers + [Offer(nodeId, reason)])
      ensures forall n :: n != nodeId ==> (n in reasons <==> n in old(reasons))
      ensures forall n :: n != nodeId && n in reasons ==> reasons[n] == old(reasons)[n]
    {
      if nodeId !in reasons || reason.Priority() < reasons[nodeId].Priority() {
        reasons := reasons[nodeId := reason];
      }
      MergedStep(old(reasons), offers, nodeId, reason);
    }

    method SetReasons(offers: seq<Offer>)
      requires reasons == map[]
      modifies this
      ensures Merged(reasons, offers)
    {
      for i := 0 to |offers|
        invariant Merged(reasons, offers[..i])
      {
        assert offers[..i + 1] == offers[..i] + [offers[i]];
        assert offers[i] == Offer(offers[i].nodeId, offers[i].reason);
        SetReason(offers[i].nodeId, offers[i].reason, offers[..i]);
      }
      assert offers[..|offers|] == offers;
    }
  }

  lemma MergedStep(reasons: map<string, Reason>, offers: seq<Offer>, nodeId: string, reason: Reason)
    requires Merged(reasons, offers)
    ensures
      var next := if nodeId !in reasons || reason.Priority() < reasons[nodeId].Priority()
                  then reasons[nodeId := reason] else reasons;
      Merged(next, offers + [Offer(nodeId, reason)])
  {
    var all := offers + [Offer(nodeId, reason)];
    assert forall o :: o in all <==> o in offers || o == Offer(nodeId, reason);
    var next := if nodeId !in reasons || reason.Priority() < reasons[nodeId].Priority()
                then reasons[nodeId := reason] else reasons;
    forall n | n in next ensures IsBestReason(next[n], n, all) {
      if n in reasons {
        assert IsBestReason(reasons[n], n, offers);
      }
    }
  }

  // The merge depends on which offers were made, not on the order or number of times.
  lemma MergeOrderIrrelevant(a: map<string, Reason>, b: map<string, Reason>,
                             offersA: seq<Offer>, offersB: seq<Offer>)
    requires Merged(a, offersA) && Merged(b, offersB)
    requires forall o :: o in offersA <==> o in offersB
    ensures a == b
  {
    forall n | n in a ensures n in b && a[n] == b[n] {
      assert IsBestReason(a[n], n, offersA);
      assert Offer(n, a[n]) in offersB;
      assert IsBestReason(b[n], n, offersB);
    }
    forall n | n in b ensures n in a {
      assert IsBestReason(b[n], n, offersB);
      assert Offer(n, b[n]) in offersA;
    }
  }

  // ----- grouping by section ---------------------------------------------------

  datatype Node = Node(nodeId: string, isSection: bool, parentId: Option<string>, ordinal: int)

  datatype ContextItem = ContextItem(sectionId: string, reason: Reason, evidenceRefs: seq<string>)

  datatype AssemblyError = NoParentSection | SectionMissing

  /** The section a record is listed under. */
  function SectionOf(n: Node): Option<string> {
    if n.isSection then Some(n.nodeId) else n.parentId
  }

  predicate Before(a: Node, b: Node) {
    a.ordinal < b.ordinal || (a.ordinal == b.ordinal && StrLe(a.nodeId, b.nodeId))
  }

  predicate InOrder(s: seq<Node>) {
    forall i, j :: 0 <= i < j < |s| ==> Before(s[i], s[j])
  }

  lemma BeforeTotal(a: Node, b: Node)
    ensures Before(a, b) || Before(b, a)
  {
    StrLeTotal(a.nodeId, b.nodeId);
  }

  lemma BeforeTransitive(a: Node, b: Node, c: Node)
    requires Before(a, b) && Before(b, c)
    ensures Before(a, c)
  {
    if a.ordinal == b.ordinal == c.ordinal {
      StrLeTransitive(a.nodeId, b.nodeId, c.nodeId);
    }
  }

  function Insert(n: Node, s: seq<Node>): (r: seq<Node>)
    ensures multiset(r) == multiset(s) + multiset{n}
    ensures InOrder(s) ==> InOrder(r)
  {
    if s == [] then [n]
    else if Before(n, s[0]) then
      assert InOrder(s) ==> forall j :: 0 < j < |s| ==> Before(n, s[j]) by {
        if InOrder(s) {
          forall j | 0 < j < |s| ensures Before(n, s[j]) {
            BeforeTransitive(n, s[0], s[j]);
          }
        }
      }
      [n] + s
    else
      var rest := Insert(n, s[1..]);
      assert s == [s[0]] + s[1..];
      assert InOrder(s) ==> InOrder([s[0]] + rest) by {
        if InOrder(s) {
          BeforeTotal(n, s[0]);
          forall j | 0 <= j < |rest| ensures Before(s[0], rest[j]) {
            assert rest[j] in multiset(rest);
            assert rest[j] == n || rest[j] in s[1..];
          }
        }
      }
      [s[0]] + rest
  }

  function SortedNodes(s: seq<Node>): (r: seq<Node>)
    ensures multiset(r) == multiset(s)
    ensures InOrder(r)
  {
    if s == [] then []
    else
      assert s == [s[0]] + s[1..];
      Insert(s[0], SortedNodes(s[1..]))
  }

  /** The records listed under `section`, in the order they were collected. */
  function Listed(records: seq<Node>, section: string): seq<Node> {
    if records == [] then []
    else
      var rest := Listed(records[..|records| - 1], section);
      if SectionOf(records[|records| - 1]) == Some(section) then rest + [records[|records| - 1]] else rest
  }

  lemma {:induction false} ListedMembers(records: seq<Node>, section: string)
    ensures forall n :: n in Listed(records, section) <==> n in records && SectionOf(n) == Some(section)
  {
    if records != [] {
      ListedMembers(records[..|records| - 1], section);
      assert records == records[..|records| - 1] + [records[|records| - 1]];
    }
  }

  function Ids(s: seq<Node>): (r: seq<string>)
    ensures |r| == |s|
    ensures forall i :: 0 <= i < |s| ==> r[i] == s[i].nodeId
  {
    if s == [] then [] else Ids(s[..|s| - 1]) + [s[|s| - 1].nodeId]
  }

  /** Sections known by identity: the parents fetched, and the records that are sections. */
  predicate Known(section: string, records: seq<Node>, parents: set<string>) {
    section in parents || exists n :: n in records && n.isSection && n.nodeId == section
  }

  /** What one item says about the records it was built from. */
  predicate ItemFaithful(item: ContextItem, records: seq<Node>, reasons: map<string, Reason>)
    requires forall n :: n in records ==> n.nodeId in reasons
  {
    && Listed(records, item.sectionId) != []
    && item.evidenceRefs == Ids(SortedNodes(Listed(records, item.sectionId)))
    && (exists n :: n in records && SectionOf(n) == Some(item.sectionId) && reasons[n.nodeId] == item.reason)
    && (forall n :: n in records && SectionOf(n) == Some(item.sectionId)
          ==> item.reason.Priority() <= reasons[n.nodeId].Priority())
  }

  method BestOf(evidence: seq<Node>, reasons: map<string, Reason>) returns (best: Reason)
    requires evidence != []
    requires forall n :: n in evidence ==> n.nodeId in reasons
    ensures exists n :: n in evidence && reasons[n.nodeId] == best
    ensures forall n :: n in evidence ==> best.Priority() <= reasons[n.nodeId].Priority()
  {
    best := reasons[evidence[0].nodeId];
    for i := 1 to |evidence|
      invariant exists n :: n in evidence && reasons[n.nodeId] == best
      invariant forall j :: 0 <= j < i ==> best.Priority() <= reasons[evidence[j].nodeId].Priority()
    {
      if reasons[evidence[i].nodeId].Priority() < best.Priority() {
        best := reasons[evidence[i].nodeId];
      }
    }
  }

  predicate Groups(grouped: map<string, seq<Node>>, records: seq<Node>) {
    && (forall s :: s in grouped ==> grouped[s] != [] && grouped[s] == Listed(records, s))
    && (forall n :: n in records ==> SectionOf(n).Some? && SectionOf(n).value in grouped)
  }

  lemma GroupsStep(grouped: map<string, seq<Node>>, records: seq<Node>, n: Node)
    requires Groups(grouped, records) && SectionOf(n).Some?
    ensures
      var s := SectionOf(n).value;
      Groups(grouped[s := (if s in grouped then grouped[s] else []) + [n]], records + [n])
  {
    var s := SectionOf(n).value;
    var all := records + [n];
    assert all[..|all| - 1] == records && all[|all| - 1] == n;
    ListedMembers(records, s);
    assert Listed(records, s) != [] ==> Listed(records, s)[0] in Listed(records, s);
  }

  /** The grouping loop: the evidence of each section, and the sections known. */
  method GroupBySection(records: seq<Node>, parents: set<string>)
    returns (result: Result<(map<string, seq<Node>>, set<string>), AssemblyError>)
    ensures result.Ok? <==> forall n :: n in records ==> SectionOf(n).Some?
    ensures result.Ok? ==>
              && Groups(result.value.0, records)
              && forall s :: s in result.value.1 <==> Known(s, records, parents)
    ensures result.Err? ==> result.error == NoParentSection
  {
    var sections := parents;
    var grouped: map<string, seq<Node>> := map[];
    for i := 0 to |records|
      invariant Groups(grouped, records[..i])
      invariant forall s :: s in sections <==> Known(s, records[..i], parents)
    {
      var record := records[i];
      assert record in records;
      if SectionOf(record).None? {
        return Err(NoParentSection);
      }
      var section := SectionOf(record).value;
      assert records[..i + 1] == records[..i] + [record];
      KnownStep(records[..i], record, parents);
      GroupsStep(grouped, records[..i], record);
      if record.isSection {
        sections := sections + {section};
      }
      grouped := grouped[section := (if section in grouped then grouped[section] else []) + [record]];
    }
    assert records[..|records|] == records;
    return Ok((grouped, sections));
  }

  method BuildItem(section: string, evidence: seq<Node>, records: seq<Node>, reasons: map<string, Reason>)
    returns (item: ContextItem)
    requires forall n :: n in records ==> n.nodeId in reasons
    requires evidence == Listed(records, section) && evidence != []
    ensures item.sectionId == section && ItemFaithful(item, records, reasons)
  {
    ListedMembers(records, section);
    var ordered := SortedNodes(evidence);
    assert forall n :: n in ordered <==> n in multiset(ordered);
    assert forall n :: n in evidence <==> n in multiset(evidence);
    assert |ordered| == |multiset(ordered)| == |multiset(evidence)| == |evidence|;
    var reason := BestOf(ordered, reasons);
    item := ContextItem(section, reason, Ids(ordered));
  }

  predicate OneItemPerSection(items: seq<ContextItem>, records: seq<Node>, reasons: map<string, Reason>)
    requires forall n :: n in records ==> n.nodeId in reasons
  {
    && (forall i, j :: 0 <= i < j < |items| ==>
          StrLe(items[i].sectionId, items[j].sectionId) && items[i].sectionId != items[j].sectionId)
    && AllFaithful(items, records, reasons)
    && (forall n :: n in records ==> exists item :: item in items && Some(item.sectionId) == SectionOf(n))
  }

  lemma GroupOf(grouped: map<string, seq<Node>>, records: seq<Node>, section: string)
    requires Groups(grouped, records) && section in grouped
    ensures grouped[section] != [] && grouped[section] == Listed(records, section)
  {
  }

  lemma FollowsStep(items: seq<ContextItem>, item: ContextItem, order: seq<string>, i: nat)
    requires i < |order| && Follows(items, order[..i]) && item.sectionId == order[i]
    ensures Follows(items + [item], order[..i + 1])
  {
  }

  method RenderSection(section: string, grouped: map<string, seq<Node>>, sections: set<string>,
                       records: seq<Node>, reasons: map<string, Reason>)
    returns (result: Result<ContextItem, AssemblyError>)
    requires forall n :: n in records ==> n.nodeId in reasons
    requires Groups(grouped, records) && section in grouped
    ensures if section in sections then result.Ok? else result == Err(SectionMissing)
    ensures result.Ok? ==> result.value.sectionId == section && ItemFaithful(result.value, records, reasons)
  {
    if section !in sections {
      return Err(SectionMissing);
    }
    GroupOf(grouped, records, section);
    var item := BuildItem(section, grouped[section], records, reasons);
    return Ok(item);
  }

  /** The rendering loop over the sorted section identities. */
  method BuildItems(order: seq<string>, grouped: map<string, seq<Node>>, sections: set<string>,
                    records: seq<Node>, reasons: map<string, Reason>)
    returns (result: Result<seq<ContextItem>, AssemblyError>)
    requires forall n :: n in records ==> n.nodeId in reasons
    requires Groups(grouped, records)
    requires forall s :: s in order <==> s in grouped
    ensures result.Ok? <==> forall s :: s in order ==> s in sections
    ensures result.Err? ==> result.error == SectionMissing
    ensures result.Ok? ==> Follows(result.value, order)
    ensures result.Ok? ==> AllFaithful(result.value, records, reasons)
  {
    var items: seq<ContextItem> := [];
    for i := 0 to |order|
      invariant Follows(items, order[..i])
      invariant forall s :: s in order[..i] ==> s in sections
      invariant AllFaithful(items, records, reasons)
    {
      var section := order[i];
      assert section in order;
      var item := RenderSection(section, grouped, sections, records, reasons);
      if item.Err? {
        return Err(item.error);
      }
      AppendFaithful(items, item.value, records, reasons);
      FollowsStep(items, item.value, order, i);
      items := items + [item.value];
    }
    assert order[..|order|] == order;
    return Ok(items);
  }

  predicate AllFaithful(items: seq<ContextItem>, records: seq<Node>, reasons: map<string, Reason>)
    requires forall n :: n in records ==> n.nodeId in reasons
  {
    forall item :: item in items ==> ItemFaithful(item, records, reasons)
  }

  lemma AppendFaithful(items: seq<ContextItem>, item: ContextItem, records: seq<Node>,
                       reasons: map<string, Reason>)
    requires forall n :: n in records ==> n.nodeId in reasons
    requires AllFaithful(items, records, reasons) && ItemFaithful(item, records, reasons)
    ensures AllFaithful(items + [item], records, reasons)
  {
  }

  predicate Follows(items: seq<ContextItem>, order: seq<string>) {
    |items| == |order| && forall j :: 0 <= j < |items| ==> items[j].sectionId == order[j]
  }

  /** Groups the records by section into items ordered by section identity. */
  method ContextItems(records: seq<Node>, reasons: map<string, Reason>, parents: set<string>)
    returns (result: Result<seq<ContextItem>, AssemblyError>)
    requires forall n :: n in records ==> n.nodeId in reasons
    ensures result == Err(NoParentSection) <==> exists n :: n in records && SectionOf(n).None?
    ensures result.Ok? <==>
              forall n :: n in records ==> SectionOf(n).Some? && Known(SectionOf(n).value, records, parents)
    ensures result.Ok? ==> OneItemPerSection(result.value, records, reasons)
  {
    var collected := GroupBySection(records, parents);
    if collected.Err? {
      return Err(collected.error);
    }
    var (grouped, sections) := collected.value;
    SectionsKnown(grouped, sections, records, parents);
    result := BuildItems(Sorted(grouped.Keys), grouped, sections, records, reasons);
    if result.Ok? {
      SortedIsStrict(grouped.Keys);
      EverySectionListed(result.value, grouped, records);
    }
  }

  lemma SectionsKnown(grouped: map<string, seq<Node>>, sections: set<string>, records: seq<Node>,
                      parents: set<string>)
    requires Groups(grouped, records)
    requires forall s :: s in sections <==> Known(s, records, parents)
    ensures grouped.Keys <= sections <==>
            forall n :: n in records ==> SectionOf(n).Some? && Known(SectionOf(n).value, records, parents)
  {
    SectionsAreThoseOfRecords(grouped, records);
    forall n | n in records ensures SectionOf(n).value in grouped.Keys {
    }
  }

  lemma SectionsAreThoseOfRecords(grouped: map<string, seq<Node>>, records: seq<Node>)
    requires Groups(grouped, records)
    ensures forall s :: s in grouped ==> exists n :: n in records && SectionOf(n) == Some(s)
  {
    forall s | s in grouped ensures exists n :: n in records && SectionOf(n) == Some(s) {
      ListedMembers(records, s);
      assert grouped[s][0] in grouped[s];
    }
  }

  lemma EverySectionListed(items: seq<ContextItem>, grouped: map<string, seq<Node>>, records: seq<Node>)
    requires Groups(grouped, records)
    requires Follows(items, Sorted(grouped.Keys))
    ensures forall n :: n in records ==> exists item :: item in items && Some(item.sectionId) == SectionOf(n)
  {
    var order := Sorted(grouped.Keys);
    forall n | n in records ensures exists item :: item in items && Some(item.sectionId) == SectionOf(n) {
      assert SectionOf(n).value in order;
      var j :| 0 <= j < |order| && order[j] == SectionOf(n).value;
      assert items[j] in items;
    }
  }

  lemma KnownStep(records: seq<Node>, n: Node, parents: set<string>)
    ensures forall s :: Known(s, records + [n], parents) <==>
                        Known(s, records, parents) || (n.isSection && n.nodeId == s)
  {
    forall s
      ensures Known(s, records + [n], parents) <==>
              Known(s, records, parents) || (n.isSection && n.nodeId == s)
    {
      assert forall m :: m in records + [n] <==> m in records || m == n;
    }
  }

  // Evidence is conserved: an identity is cited by exactly the item of its section.
  lemma EvidenceCitedOnce(items: seq<ContextItem>, records: seq<Node>, reasons: map<string, Reason>, n: Node)
    requires forall m :: m in records ==> m.nodeId in reasons
    requires forall i, j :: 0 <= i < j < |records| ==> records[i].nodeId != records[j].nodeId
    requires forall item :: item in items ==> ItemFaithful(item, records, reasons)
    requires n in records
    ensures forall item :: item in items ==>
              (n.nodeId in item.evidenceRefs <==> SectionOf(n) == Some(item.sectionId))
  {
    forall item | item in items
      ensures n.nodeId in item.evidenceRefs <==> SectionOf(n) == Some(item.sectionId)
    {
      if SectionOf(n) == Some(item.sectionId) {
        CitedIfListed(records, item.sectionId, n);
      }
      if n.nodeId in item.evidenceRefs {
        ListedIfCited(records, item.sectionId, n);
      }
    }
  }

  lemma SortedMembers(records: seq<Node>, section: string, m: Node)
    ensures m in SortedNodes(Listed(records, section)) <==> m in records && SectionOf(m) == Some(section)
  {
    var listed := Listed(records, section);
    ListedMembers(records, section);
    assert m in SortedNodes(listed) <==> m in multiset(SortedNodes(listed));
    assert m in listed <==> m in multiset(listed);
  }

  lemma CitedIfListed(records: seq<Node>, section: string, n: Node)
    requires n in records && SectionOf(n) == Some(section)
    ensures n.nodeId in Ids(SortedNodes(Listed(records, section)))
  {
    var evidence := SortedNodes(Listed(records, section));
    SortedMembers(records, section, n);
    var i :| 0 <= i < |evidence| && evidence[i] == n;
    assert Ids(evidence)[i] == n.nodeId;
  }

  lemma ListedIfCited(records: seq<Node>, section: string, n: Node)
    requires forall i, j :: 0 <= i < j < |records| ==> records[i].nodeId != records[j].nodeId
    requires n in records && n.nodeId in Ids(SortedNodes(Listed(records, section)))
    ensures SectionOf(n) == Some(section)
  {
    var evidence := SortedNodes(Listed(records, section));
    var i :| 0 <= i < |evidence| && Ids(evidence)[i] == n.nodeId;
    SortedMembers(records, section, evidence[i]);
    assert evidence[i] in evidence;
  }
}
