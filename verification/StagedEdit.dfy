/** Swapping staged replacements in, and putting the originals back when publication fails. */
module StagedEdit {
  import opened Wrappers

  type Content = string

  type Files = map<string, Content>

  /** A staged document: its file and two temporary siblings. */
  datatype Item = Item(path: string, replacement: string, backup: string, digest: string)

  /** The steps that can fail: a copy or rename of one item, or the publication, which can also be
      interrupted by something that is no `Exception` and so is not caught. */
  datatype Step = BackUp | Swap | Publish | Interrupt | Restore

  type Faults = (Step, nat) -> bool

  datatype Outcome =
    | Materialized
    | DocumentChanged
    | BackUpFailed
    | SwapFailed(i: nat)
    | Interrupted
    | MaterializeFailed
    | RestoreFailed(i: nat)

  /** The temporary files exist, are all different, and are not documents. */
  ghost predicate Staged(files: Files, items: seq<Item>) {
    && (forall i :: 0 <= i < |items| ==> items[i].replacement in files && items[i].backup in files)
    && (forall i, j :: 0 <= i < |items| && 0 <= j < |items| ==>
          && items[i].replacement != items[j].backup
          && items[i].path != items[j].replacement && items[i].path != items[j].backup
          && (i != j ==> items[i].replacement != items[j].replacement && items[i].backup != items[j].backup))
  }

  predicate Temporary(items: seq<Item>, p: string) {
    exists i :: 0 <= i < |items| && (p == items[i].replacement || p == items[i].backup)
  }

  /** The last of the first `n` items at `p`, if any. */
  function LastAt(items: seq<Item>, n: nat, p: string): Option<nat>
    requires n <= |items|
  {
    if n == 0 then None else if items[n - 1].path == p then Some(n - 1) else LastAt(items, n - 1, p)
  }

  lemma {:induction false} LastAtBelow(items: seq<Item>, n: nat, p: string)
    requires n <= |items|
    ensures LastAt(items, n, p).Some? ==> LastAt(items, n, p).value < n && items[LastAt(items, n, p).value].path == p
    ensures LastAt(items, n, p).None? <==> forall i :: 0 <= i < n ==> items[i].path != p
  {
    if n > 0 {
      LastAtBelow(items, n - 1, p);
    }
  }

  predicate Intact(was: Files, items: seq<Item>) {
    forall i :: 0 <= i < |items| ==> items[i].path in was
  }

  /** What a document holds after the first `n` swaps and then the first `m` restorations. */
  ghost function Holding(was: Files, items: seq<Item>, n: nat, m: nat, p: string): Content
    requires n <= |items| && m <= |items| && p in was
    requires forall i :: 0 <= i < |items| ==> items[i].replacement in was
  {
    LastAtBelow(items, n, p);
    if LastAt(items, m, p).None? && LastAt(items, n, p).Some? then was[items[LastAt(items, n, p).value].replacement]
    else was[p]
  }

  /** The documents after `n` swaps and `m` restorations, whatever became of the temporary files. */
  ghost predicate Documents(files: Files, was: Files, items: seq<Item>, n: nat, m: nat)
    requires n <= |items| && m <= |items|
    requires forall i :: 0 <= i < |items| ==> items[i].replacement in was
  {
    forall p :: !Temporary(items, p) ==>
      (p in files <==> p in was) && (p in was ==> files[p] == Holding(was, items, n, m, p))
  }

  /** The temporary files after all backups, `n` swaps and `m` restorations. */
  ghost predicate Temporaries(files: Files, was: Files, items: seq<Item>, n: nat, m: nat) {
    && (forall i :: 0 <= i < |items| && n <= i ==>
          items[i].replacement in files && items[i].replacement in was && files[items[i].replacement] == was[items[i].replacement])
    && (forall i :: 0 <= i < |items| && m <= i ==>
          items[i].backup in files && items[i].path in was && files[items[i].backup] == was[items[i].path])
  }

  /** After all backups, `n` swaps and `m` restorations. */
  ghost predicate During(files: Files, was: Files, items: seq<Item>, n: nat, m: nat) {
    && n <= |items| && m <= |items| && Staged(was, items) && Intact(was, items)
    && Documents(files, was, items, n, m) && Temporaries(files, was, items, n, m)
  }

  /** The first `k` backups are made, and nothing but backups has changed. */
  ghost predicate BackedUp(files: Files, was: Files, items: seq<Item>, k: nat) {
    && k <= |items| && Staged(was, items) && Intact(was, items)
    && (forall p :: p in files <==> p in was)
    && (forall p :: p in was && (forall j :: 0 <= j < |items| ==> p != items[j].backup) ==> files[p] == was[p])
    && (forall j :: 0 <= j < k ==> files[items[j].backup] == was[items[j].path])
  }

  lemma BackUpStep(files: Files, was: Files, items: seq<Item>, k: nat)
    requires BackedUp(files, was, items, k) && k < |items|
    ensures items[k].path in files
    ensures BackedUp(files[items[k].backup := files[items[k].path]], was, items, k + 1)
  {
  }

  lemma BackedUpDocuments(files: Files, was: Files, items: seq<Item>, k: nat)
    requires BackedUp(files, was, items, k)
    ensures Documents(files, was, items, 0, 0)
  {
  }

  lemma BackedUpTemporaries(files: Files, was: Files, items: seq<Item>)
    requires BackedUp(files, was, items, |items|)
    ensures Temporaries(files, was, items, 0, 0)
  {
  }

  lemma BackupsRemain(files: Files, was: Files, items: seq<Item>, m: nat)
    requires m < |items| && During(files, was, items, |items|, m)
    ensures items[m].backup in files
  {
  }

  function Renamed(files: Files, from: string, to: string): Files
    requires from in files
  {
    (files - {from})[to := files[from]]
  }

  class FileSystem {
    var files: Files

    constructor (files: Files)
      ensures this.files == files
    {
      this.files := files;
    }

    method Rename(from: string, to: string)
      requires from in files && from != to
      modifies this
      ensures files == Renamed(old(files), from, to)
    {
      files := (files - {from})[to := files[from]];
    }

    /** True when every document still has the content the edit was prepared from. */
    method CheckDigests(items: seq<Item>, digest: Content -> string) returns (ok: bool)
      ensures ok <==> AsPrepared(files, items, digest)
    {
      for i := 0 to |items|
        invariant forall j :: 0 <= j < i ==> items[j].path in files && digest(files[items[j].path]) == items[j].digest
      {
        if items[i].path !in files || digest(files[items[i].path]) != items[i].digest {
          return false;
        }
      }
      return true;
    }

    method BackUpAll(items: seq<Item>, fails: Faults) returns (ok: bool)
      requires Staged(files, items) && Intact(files, items)
      modifies this
      ensures Documents(files, old(files), items, 0, 0)
      ensures ok ==> During(files, old(files), items, 0, 0)
      ensures ok <==> FirstFailure(fails, BackUp, |items|, 0) == |items|
    {
      ghost var was := files;
      for i := 0 to |items|
        invariant BackedUp(files, was, items, i)
        invariant FirstFailure(fails, BackUp, |items|, 0) == FirstFailure(fails, BackUp, |items|, i)
      {
        BackedUpDocuments(files, was, items, i);
        if fails(BackUp, i) {
          return false;
        }
        BackUpStep(files, was, items, i);
        files := files[items[i].backup := files[items[i].path]];
      }
      BackedUpDocuments(files, was, items, |items|);
      BackedUpTemporaries(files, was, items);
      return true;
    }

    method SwapOne(items: seq<Item>, n: nat, ghost was: Files)
      requires n < |items| && During(files, was, items, n, 0)
      modifies this
      ensures During(files, was, items, n + 1, 0)
    {
      SwapStep(files, was, items, n);
      Rename(items[n].replacement, items[n].path);
    }

    /** Renames replacements over their documents, up to the first rename that fails. */
    method SwapAll(items: seq<Item>, fails: Faults, ghost was: Files) returns (n: nat)
      requires During(files, was, items, 0, 0)
      modifies this
      ensures n <= |items| && n == FirstFailure(fails, Swap, |items|, 0)
      ensures During(files, was, items, n, 0)
    {
      n := 0;
      while n < |items|
        invariant n <= |items| && During(files, was, items, n, 0)
        invariant FirstFailure(fails, Swap, |items|, 0) == FirstFailure(fails, Swap, |items|, n)
      {
        if fails(Swap, n) {
          return;
        }
        SwapOne(items, n, was);
        n := n + 1;
      }
    }

    method RestoreOne(items: seq<Item>, m: nat, ghost was: Files)
      requires m < |items| && During(files, was, items, |items|, m)
      modifies this
      ensures During(files, was, items, |items|, m + 1)
    {
      RestoreStep(files, was, items, m);
      Rename(items[m].backup, items[m].path);
    }

    /** Renames backups over their documents, up to the first rename that fails. */
    method RestoreAll(items: seq<Item>, fails: Faults, ghost was: Files) returns (m: nat)
      requires During(files, was, items, |items|, 0)
      modifies this
      ensures m <= |items| && m == FirstFailure(fails, Restore, |items|, 0)
      ensures During(files, was, items, |items|, m)
    {
      m := 0;
      while m < |items|
        invariant m <= |items| && During(files, was, items, |items|, m)
        invariant FirstFailure(fails, Restore, |items|, 0) == FirstFailure(fails, Restore, |items|, m)
      {
        BackupsRemain(files, was, items, m);
        if items[m].backup in files {
          if fails(Restore, m) {
            return;
          }
          RestoreOne(items, m, was);
        }
        m := m + 1;
      }
    }

    method CleanUp(items: seq<Item>, ghost was: Files, ghost n: nat, ghost m: nat)
      requires n <= |items| && m <= |items| && Staged(was, items) && Documents(files, was, items, n, m)
      modifies this
      ensures Documents(files, was, items, n, m)
      ensures forall p :: Temporary(items, p) ==> p !in files
    {
      for i := 0 to |items|
        invariant Documents(files, was, items, n, m)
        invariant forall j :: 0 <= j < i ==> items[j].replacement !in files && items[j].backup !in files
      {
        assert Temporary(items, items[i].replacement) && Temporary(items, items[i].backup);
        files := files - {items[i].replacement, items[i].backup};
      }
    }

    /** The publication, and the restoration when it raises. */
    method PublishOrRestore(items: seq<Item>, fails: Faults, ghost was: Files) returns (r: Outcome)
      requires During(files, was, items, |items|, 0)
      modifies this
      ensures r == PublishOutcome(|items|, fails)
      ensures During(files, was, items, |items|, Restored(r, |items|))
    {
      if fails(Interrupt, 0) {
        return Interrupted;
      }
      if !fails(Publish, 0) {
        return Materialized;
      }
      var m := RestoreAll(items, fails, was);
      return if m < |items| then RestoreFailed(m) else MaterializeFailed;
    }

    /** The swap loop, and the publication after it. */
    method SwapAndPublish(items: seq<Item>, fails: Faults, ghost was: Files) returns (r: Outcome)
      requires During(files, was, items, 0, 0)
      modifies this
      ensures r == SwapOutcome(|items|, fails)
      ensures During(files, was, items, Swapped(r, |items|), Restored(r, |items|))
    {
      var n := SwapAll(items, fails, was);
      if n < |items| {
        r := SwapFailed(n);
      } else {
        r := PublishOrRestore(items, fails, was);
      }
    }

    /** `apply_and_materialize`, from the staged edits on; the temporary files go whatever happens. */
    method ApplyAndMaterialize(items: seq<Item>, digest: Content -> string, fails: Faults) returns (r: Outcome)
      requires Staged(files, items)
      modifies this
      ensures forall p :: Temporary(items, p) ==> p !in files
      ensures r == Expected(old(files), items, digest, fails)
      ensures Leaves(files, old(files), items, digest, fails)
    {
      ghost var was := files;
      DocumentsStart(was, items);
      var asPrepared := CheckDigests(items, digest);
      if !asPrepared {
        r := DocumentChanged;
      } else {
        var backedUp := BackUpAll(items, fails);
        if backedUp {
          r := SwapAndPublish(items, fails, was);
        } else {
          r := BackUpFailed;
        }
      }
      CleanUp(items, was, Swapped(r, |items|), Restored(r, |items|));
    }
  }

  lemma DocumentsStart(was: Files, items: seq<Item>)
    requires Staged(was, items)
    ensures Documents(was, was, items, 0, 0)
  {
  }

  lemma SwapDocuments(files: Files, was: Files, items: seq<Item>, n: nat)
    requires n < |items| && During(files, was, items, n, 0) && items[n].replacement in files
    ensures Documents(Renamed(files, items[n].replacement, items[n].path), was, items, n + 1, 0)
  {
    assert Temporary(items, items[n].replacement) && !Temporary(items, items[n].path);
  }

  lemma SwapTemporaries(files: Files, was: Files, items: seq<Item>, n: nat)
    requires n < |items| && Staged(was, items) && Temporaries(files, was, items, n, 0) && items[n].replacement in files
    ensures Temporaries(Renamed(files, items[n].replacement, items[n].path), was, items, n + 1, 0)
  {
  }

  lemma SwapStep(files: Files, was: Files, items: seq<Item>, n: nat)
    requires n < |items| && During(files, was, items, n, 0)
    ensures items[n].replacement in files && items[n].replacement != items[n].path
    ensures During(Renamed(files, items[n].replacement, items[n].path), was, items, n + 1, 0)
  {
    SwapDocuments(files, was, items, n);
    SwapTemporaries(files, was, items, n);
  }

  lemma RestoreDocuments(files: Files, was: Files, items: seq<Item>, m: nat)
    requires m < |items| && During(files, was, items, |items|, m) && items[m].backup in files
    ensures Documents(Renamed(files, items[m].backup, items[m].path), was, items, |items|, m + 1)
  {
    assert Temporary(items, items[m].backup) && !Temporary(items, items[m].path);
  }

  lemma RestoreTemporaries(files: Files, was: Files, items: seq<Item>, m: nat)
    requires m < |items| && Staged(was, items) && Temporaries(files, was, items, |items|, m) && items[m].backup in files
    ensures Temporaries(Renamed(files, items[m].backup, items[m].path), was, items, |items|, m + 1)
  {
  }

  lemma RestoreStep(files: Files, was: Files, items: seq<Item>, m: nat)
    requires m < |items| && During(files, was, items, |items|, m)
    ensures items[m].backup in files && items[m].backup != items[m].path
    ensures During(Renamed(files, items[m].backup, items[m].path), was, items, |items|, m + 1)
  {
    RestoreDocuments(files, was, items, m);
    RestoreTemporaries(files, was, items, m);
  }

  // ----- which outcome, and what it leaves -----------------------------------------------------

  /** The first of `n` steps of a kind, from the `i`-th on, that fails; `n` if none does. */
  function FirstFailure(fails: Faults, step: Step, n: nat, i: nat): (r: nat)
    requires i <= n
    ensures i <= r <= n
    decreases n - i
  {
    if i == n || fails(step, i) then i else FirstFailure(fails, step, n, i + 1)
  }

  predicate AsPrepared(was: Files, items: seq<Item>, digest: Content -> string) {
    forall i :: 0 <= i < |items| ==> items[i].path in was && digest(was[items[i].path]) == items[i].digest
  }

  function PublishOutcome(n: nat, fails: Faults): (r: Outcome)
    ensures Swapped(r, n) == n
  {
    var restorations := FirstFailure(fails, Restore, n, 0);
    if fails(Interrupt, 0) then Interrupted
    else if !fails(Publish, 0) then Materialized
    else if restorations < n then RestoreFailed(restorations)
    else MaterializeFailed
  }

  function SwapOutcome(n: nat, fails: Faults): Outcome {
    var swaps := FirstFailure(fails, Swap, n, 0);
    if swaps < n then SwapFailed(swaps) else PublishOutcome(n, fails)
  }

  function Expected(was: Files, items: seq<Item>, digest: Content -> string, fails: Faults): Outcome {
    if !AsPrepared(was, items, digest) then DocumentChanged
    else if FirstFailure(fails, BackUp, |items|, 0) < |items| then BackUpFailed
    else SwapOutcome(|items|, fails)
  }

  function Swapped(r: Outcome, n: nat): (k: nat)
    ensures k <= n
  {
    match r
    case DocumentChanged | BackUpFailed => 0
    case SwapFailed(i) => if i <= n then i else n
    case _ => n
  }

  function Restored(r: Outcome, n: nat): (k: nat)
    ensures k <= n
  {
    match r
    case MaterializeFailed => n
    case RestoreFailed(i) => if i <= n then i else n
    case _ => 0
  }

  predicate Original(files: Files, was: Files, items: seq<Item>) {
    forall i :: 0 <= i < |items| ==>
      (items[i].path in files <==> items[i].path in was) && (items[i].path in was ==> files[items[i].path] == was[items[i].path])
  }

  predicate Replaced(files: Files, was: Files, items: seq<Item>) {
    forall i :: 0 <= i < |items| ==>
      items[i].path in files && items[i].replacement in was && files[items[i].path] == was[items[i].replacement]
  }

  predicate DistinctPaths(items: seq<Item>) {
    forall i, j :: 0 <= i < j < |items| ==> items[i].path != items[j].path
  }

  /** Every edit changes its document. */
  predicate Changing(was: Files, items: seq<Item>) {
    forall i :: 0 <= i < |items| ==>
      items[i].path in was && items[i].replacement in was && was[items[i].path] != was[items[i].replacement]
  }

  lemma {:induction false} LastAtDistinct(items: seq<Item>, n: nat, i: nat)
    requires n <= |items| && i < |items| && DistinctPaths(items)
    ensures LastAt(items, n, items[i].path) == if i < n then Some(i) else None
  {
    if n > 0 {
      LastAtDistinct(items, n - 1, i);
    }
  }

  // With distinct paths, item i holds its replacement exactly when it was swapped and not restored.
  lemma ItemHolds(files: Files, was: Files, items: seq<Item>, n: nat, m: nat, i: nat)
    requires n <= |items| && m <= |items| && i < |items| && items[i].path in was
    requires Staged(was, items) && DistinctPaths(items) && Documents(files, was, items, n, m)
    ensures items[i].path in files
    ensures files[items[i].path] == if m <= i < n then was[items[i].replacement] else was[items[i].path]
  {
    LastAtDistinct(items, n, i);
    LastAtDistinct(items, m, i);
    assert !Temporary(items, items[i].path);
  }

  /** What a call with these faults leaves in the documents. */
  ghost predicate Leaves(files: Files, was: Files, items: seq<Item>, digest: Content -> string, fails: Faults)
    requires forall i :: 0 <= i < |items| ==> items[i].replacement in was
  {
    var r := Expected(was, items, digest, fails);
    Documents(files, was, items, Swapped(r, |items|), Restored(r, |items|))
  }

  // A failed publication, a changed document or a failed backup leaves every document as it was.
  lemma FailureLeavesOriginals(files: Files, was: Files, items: seq<Item>, r: Outcome)
    requires Staged(was, items) && Documents(files, was, items, Swapped(r, |items|), Restored(r, |items|))
    requires r == DocumentChanged || r == BackUpFailed || r == MaterializeFailed || r == SwapFailed(0)
    ensures Original(files, was, items)
  {
    forall i | 0 <= i < |items|
      ensures items[i].path in files <==> items[i].path in was
      ensures items[i].path in was ==> files[items[i].path] == was[items[i].path]
    {
      assert !Temporary(items, items[i].path);
      LastAtBelow(items, |items|, items[i].path);
    }
  }

  lemma SuccessReplaces(files: Files, was: Files, items: seq<Item>)
    requires Staged(was, items) && Intact(was, items) && DistinctPaths(items)
    requires Documents(files, was, items, |items|, 0)
    ensures Replaced(files, was, items)
  {
    forall i | 0 <= i < |items| ensures items[i].path in files && files[items[i].path] == was[items[i].replacement] {
      ItemHolds(files, was, items, |items|, 0, i);
    }
  }

  /** All renames of the swap loop go through. */
  predicate AllSwapped(was: Files, items: seq<Item>, digest: Content -> string, fails: Faults) {
    && AsPrepared(was, items, digest)
    && FirstFailure(fails, BackUp, |items|, 0) == |items| && FirstFailure(fails, Swap, |items|, 0) == |items|
  }

  /** The publication raises, and is not interrupted, so that the restoration runs. */
  predicate Undoes(fails: Faults) {
    !fails(Interrupt, 0) && fails(Publish, 0)
  }

  predicate EndsOriginal(was: Files, items: seq<Item>, digest: Content -> string, fails: Faults) {
    || !AsPrepared(was, items, digest)
    || FirstFailure(fails, BackUp, |items|, 0) < |items|
    || FirstFailure(fails, Swap, |items|, 0) == 0
    || (AllSwapped(was, items, digest, fails) && Undoes(fails) && FirstFailure(fails, Restore, |items|, 0) == |items|)
  }

  predicate EndsReplaced(was: Files, items: seq<Item>, digest: Content -> string, fails: Faults) {
    && AllSwapped(was, items, digest, fails)
    && (!Undoes(fails) || FirstFailure(fails, Restore, |items|, 0) == 0)
  }

  /** Distinct documents, at least one, each changed by its edit. */
  ghost predicate Proper(was: Files, items: seq<Item>) {
    items != [] && Staged(was, items) && DistinctPaths(items) && Changing(was, items)
  }

  lemma DocumentsByItem(files: Files, was: Files, items: seq<Item>, n: nat, m: nat)
    requires Proper(was, items) && n <= |items| && m <= |items| && Documents(files, was, items, n, m)
    ensures Original(files, was, items) <==> n <= m
    ensures Replaced(files, was, items) <==> m == 0 && n == |items|
  {
    forall i | 0 <= i < |items|
      ensures items[i].path in files && items[i].path in was
      ensures files[items[i].path] == was[items[i].path] <==> !(m <= i < n)
      ensures files[items[i].path] == was[items[i].replacement] <==> m <= i < n
    {
      ItemHolds(files, was, items, n, m, i);
    }
    var last := |items| - 1;
    assert m < n ==> files[items[m].path] != was[items[m].path];
    assert m > 0 ==> files[items[0].path] != was[items[0].replacement];
    assert n < |items| ==> files[items[last].path] != was[items[last].replacement];
  }

  // What each pattern of faults leaves: every original, every replacement, or a mixture.
  lemma AllOrNothingIff(files: Files, was: Files, items: seq<Item>, digest: Content -> string, fails: Faults)
    requires Proper(was, items) && Leaves(files, was, items, digest, fails)
    ensures Original(files, was, items) <==> EndsOriginal(was, items, digest, fails)
    ensures Replaced(files, was, items) <==> EndsReplaced(was, items, digest, fails)
  {
    var r := Expected(was, items, digest, fails);
    var n, m := Swapped(r, |items|), Restored(r, |items|);
    DocumentsByItem(files, was, items, n, m);
  }

  /** Whatever fails, the edit leaves all originals or all replacements. */
  ghost predicate AlwaysAllOrNothing(was: Files, items: seq<Item>, digest: Content -> string)
    requires forall i :: 0 <= i < |items| ==> items[i].replacement in was
  {
    forall files: Files, fails: Faults :: Leaves(files, was, items, digest, fails) ==>
      Original(files, was, items) || Replaced(files, was, items)
  }

  /** Only the second rename of the swap loop fails. */
  function SecondSwapFails(): Faults {
    (step: Step, i: nat) => step == Swap && i == 1
  }

  lemma {:induction false} OthersGoThrough(step: Step, n: nat, i: nat)
    requires i <= n && (step != Swap || i > 1)
    ensures FirstFailure(SecondSwapFails(), step, n, i) == n
    decreases n - i
  {
    if i < n {
      OthersGoThrough(step, n, i + 1);
    }
  }

  lemma SecondSwapOutcome(was: Files, items: seq<Item>, digest: Content -> string)
    requires |items| > 1 && AsPrepared(was, items, digest)
    ensures !EndsOriginal(was, items, digest, SecondSwapFails()) && !EndsReplaced(was, items, digest, SecondSwapFails())
  {
    OthersGoThrough(BackUp, |items|, 0);
    assert FirstFailure(SecondSwapFails(), Swap, |items|, 1) == 1;
  }

  lemma SomethingIsLeft(was: Files, items: seq<Item>, digest: Content -> string, fails: Faults) returns (files: Files)
    requires Staged(was, items)
    ensures Leaves(files, was, items, digest, fails)
  {
    var r := Expected(was, items, digest, fails);
    files := map p | p in was && !Temporary(items, p) :: Holding(was, items, Swapped(r, |items|), Restored(r, |items|), p);
  }

  // The renames of the swap loop are not undone when a later one fails, and their backups are deleted.
  // So the edit is proof against every failure exactly when there is one document, or one that no
  // longer has the content it was prepared from.
  lemma AlwaysAllOrNothingIff(was: Files, items: seq<Item>, digest: Content -> string)
    requires Proper(was, items)
    ensures AlwaysAllOrNothing(was, items, digest) <==> |items| == 1 || !AsPrepared(was, items, digest)
  {
    if |items| == 1 || !AsPrepared(was, items, digest) {
      forall files: Files, fails: Faults | Leaves(files, was, items, digest, fails)
        ensures Original(files, was, items) || Replaced(files, was, items)
      {
        AllOrNothingIff(files, was, items, digest, fails);
      }
    } else {
      var files := SomethingIsLeft(was, items, digest, SecondSwapFails());
      AllOrNothingIff(files, was, items, digest, SecondSwapFails());
      SecondSwapOutcome(was, items, digest);
    }
  }
}
