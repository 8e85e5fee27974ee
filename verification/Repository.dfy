/**
 * The app checkout and what the launcher does to it
 * (launcher/linux/stella-launcher.c:1087-1150, 2540-2610): an abstract git
 * repository, signatures that verify exactly what they signed, and each git
 * command as a boolean that says whether it worked.
 */
module Repository {
  import opened Options

  datatype Commit = Commit(tree: int, parents: seq<int>)

  /** A note is a signature over a tree, or text that is none. */
  datatype Note = Signature(key: int, tree: int) | Garbage

  /** `changed` counts the lines of `git status`; `knownGood` may name a commit that is gone. */
  datatype Repo = Repo(commits: map<int, Commit>, head: Option<int>, knownGood: Option<int>,
                       notes: map<int, Note>, changed: nat)

  /** What is on disk, and every tree the launcher ever signed. */
  datatype Disk = Disk(repo: Option<Repo>, signed: set<int>)

  predicate HasHead(r: Repo) { r.head.Some? && r.head.value in r.commits }

  function HeadTree(r: Repo): int
    requires HasHead(r)
  {
    r.commits[r.head.value].tree
  }

  predicate HasKnownGood(r: Repo) { r.knownGood.Some? && r.knownGood.value in r.commits }

  function KnownTree(r: Repo): int
    requires HasKnownGood(r)
  {
    r.commits[r.knownGood.value].tree
  }

  // -------------------------------------------------------- verifying, signing

  datatype Verdict = Signed | Unsigned | BadSignature | Dirty | Error

  datatype VerifyCalls = VerifyCalls(status: bool, head: bool, tree: bool, runNotes: bool, showNote: bool)

  function VerifyHead(r: Repo, key: int, c: VerifyCalls): Verdict {
    if !c.status then Error
    else if r.changed > 0 then Dirty
    else if !c.head || !c.tree || !HasHead(r) then Error
    else if !c.runNotes then Error
    else if !c.showNote || r.head.value !in r.notes then Unsigned
    else if r.notes[r.head.value] == Signature(key, HeadTree(r)) then Signed
    else BadSignature
  }

  /** HEAD carries the launcher's signature over its own tree, and nothing is uncommitted. */
  predicate Trusted(r: Repo, key: int) {
    r.changed == 0 && HasHead(r) && r.head.value in r.notes && r.notes[r.head.value] == Signature(key, HeadTree(r))
  }

  datatype SignCalls = SignCalls(head: bool, status: bool, tree: bool, sign: bool, addNote: bool)

  /** The signed repository; None when signing was refused or failed, which changes nothing. */
  function SignHead(r: Repo, key: int, expected: Option<int>, c: SignCalls): Option<Repo> {
    if !c.head || !HasHead(r) then None
    else if expected.Some? && expected != r.head then None
    else if !c.status || r.changed > 0 then None
    else if !c.tree || !c.sign || !c.addNote then None
    else Some(r.(notes := r.notes[r.head.value := Signature(key, HeadTree(r))]))
  }

  /** Signing on disk: the tree joins those signed. */
  function SignOnDisk(r: Repo, signed: set<int>, key: int, expected: Option<int>, c: SignCalls): (Disk, bool) {
    var after := SignHead(r, key, expected, c);
    if after.None? then (Disk(Some(r), signed), false) else (Disk(after, signed + {HeadTree(r)}), true)
  }

  // ------------------------------------------------------------------ recovery

  /** `aside`: moving the old checkout away; `clone`: what was cloned, if that worked. */
  datatype ReinstallCalls = ReinstallCalls(aside: bool, clone: Option<Repo>, sign: SignCalls)

  function Reinstall(d: Disk, key: int, c: ReinstallCalls): (Disk, bool) {
    if d.repo.Some? && !c.aside then (d, false)
    else if c.clone.None? then (Disk(None, d.signed), false)
    else SignOnDisk(c.clone.value, d.signed, key, None, c.sign)
  }

  datatype ReturnCalls = ReturnCalls(
    probe: bool, status: bool, stash: bool, head: bool, knownTree: bool, headTree: bool,
    commitTree: bool, commitId: int, merge: bool, sign: SignCalls, reinstall: ReinstallCalls)

  /** Objects are named by their contents, so an id already in use names the same commit. */
  function CommitTree(r: Repo, id: int, commit: Commit): Option<Repo> {
    if id in r.commits && r.commits[id] != commit then None else Some(r.(commits := r.commits[id := commit]))
  }

  /** The commit that puts the known-good tree on top of HEAD, merged by fast-forward. */
  function ForwardCommit(r: Repo, c: ReturnCalls): (Repo, bool)
    requires HasHead(r) && HasKnownGood(r)
  {
    var made := if c.commitTree then CommitTree(r, c.commitId, Commit(KnownTree(r), [r.head.value])) else None;
    if made.None? then (r, false)
    else if !c.merge then (made.value, false)
    else (made.value.(head := Some(c.commitId)), true)
  }

  function ReturnToKnownGood(d: Disk, key: int, c: ReturnCalls): (Disk, bool) {
    if d.repo.None? || !c.probe || !HasKnownGood(d.repo.value) then Reinstall(d, key, c.reinstall)
    else
      var r := d.repo.value;
      if !c.status || (r.changed > 0 && !c.stash) then (d, false)
      else
        var clean := r.(changed := 0);
        if !c.head || !c.knownTree || !c.headTree || !HasHead(r) then (Disk(Some(clean), d.signed), false)
        else
          var moved := if KnownTree(r) == HeadTree(r) then (clean, true) else ForwardCommit(clean, c);
          if !moved.1 then (Disk(Some(moved.0), d.signed), false)
          else SignOnDisk(moved.0, d.signed, key, None, c.sign)
  }

  // ---------------------------------------------------------------- properties

  /** `path` walks from its first commit to its last through parents. */
  ghost predicate IsPath(r: Repo, path: seq<int>) {
    path != [] && (forall i :: 0 <= i < |path| ==> path[i] in r.commits)
    && forall i :: 0 <= i < |path| - 1 ==> path[i + 1] in r.commits[path[i]].parents
  }

  ghost predicate Reaches(r: Repo, from: int, to: int) {
    exists path :: IsPath(r, path) && path[0] == from && path[|path| - 1] == to
  }

  /** Nothing of `before` is rewritten in `after`, but for the note of its own HEAD. */
  ghost predicate Keeps(before: Repo, after: Repo) {
    (forall id :: id in before.commits ==> id in after.commits && after.commits[id] == before.commits[id])
    && after.knownGood == before.knownGood
    && forall id :: id in before.notes && after.head != Some(id)
         ==> id in after.notes && after.notes[id] == before.notes[id]
  }

  predicate AllWork(c: VerifyCalls) { c.status && c.head && c.tree && c.runNotes && c.showNote }

  /** HEAD is accepted exactly when it is trusted and no command failed. */
  lemma {:induction false} VerifyIffTrusted(r: Repo, key: int, c: VerifyCalls)
    ensures VerifyHead(r, key, c) == Signed <==> Trusted(r, key) && AllWork(c)
  {
  }

  /** A signed HEAD verifies, and no other commit's note moved. */
  lemma {:induction false} SignedVerifies(r: Repo, key: int, expected: Option<int>, c: SignCalls)
    requires SignHead(r, key, expected, c).Some?
    ensures var after := SignHead(r, key, expected, c).value;
            Trusted(after, key) && after.head == r.head && (expected.None? || expected == r.head) && r.changed == 0
            && Keeps(r, after) && Keeps(after, r)
  {
  }

  lemma {:induction false} Follows(r: Repo, child: int, parent: int)
    requires child in r.commits && parent in r.commits && (child == parent || parent in r.commits[child].parents)
    ensures Reaches(r, child, parent)
  {
    var path := if child == parent then [child] else [child, parent];
    assert IsPath(r, path) && path[0] == child && path[|path| - 1] == parent;
  }

  /**
   * Rollback only goes forward. Whether or not it succeeds, nothing is
   * rewritten and HEAD still has the old one as itself or an ancestor. When it
   * succeeds, HEAD's tree is the known-good one and HEAD verifies.
   */
  lemma {:induction false} ReturnGoesForward(d: Disk, key: int, c: ReturnCalls)
    requires d.repo.Some? && c.probe && HasKnownGood(d.repo.value) && HasHead(d.repo.value)
    ensures var (after, ok) := ReturnToKnownGood(d, key, c);
            var r := d.repo.value;
            after.repo.Some? && HasHead(after.repo.value) && Keeps(r, after.repo.value)
            && Reaches(after.repo.value, after.repo.value.head.value, r.head.value)
            && (ok ==> HeadTree(after.repo.value) == KnownTree(r) && Trusted(after.repo.value, key)
                       && after.signed == d.signed + {KnownTree(r)})
            && (!ok ==> after.signed == d.signed)
  {
    var after := ReturnToKnownGood(d, key, c).0;
    Follows(after.repo.value, after.repo.value.head.value, d.repo.value.head.value);
  }

  predicate Signs(c: SignCalls) { c.head && c.status && c.tree && c.sign && c.addNote }

  /**
   * It succeeds exactly when the commands it needs work: stashing only over
   * changes, committing only over another tree.
   */
  lemma {:induction false} ReturnSucceedsIff(d: Disk, key: int, c: ReturnCalls)
    requires d.repo.Some? && c.probe && HasKnownGood(d.repo.value) && HasHead(d.repo.value)
    ensures var r := d.repo.value;
            var forward := Commit(KnownTree(r), [r.head.value]);
            ReturnToKnownGood(d, key, c).1 <==>
            c.status && (r.changed == 0 || c.stash) && c.head && c.knownTree && c.headTree
            && (KnownTree(r) == HeadTree(r)
                || (c.commitTree && c.merge && (c.commitId in r.commits ==> r.commits[c.commitId] == forward)))
            && Signs(c.sign)
  {
  }

  // ------------------------------------------------------------- unforgeability

  /** No note in `r` is a signature by `key` over a tree it never signed. */
  ghost predicate Unforged(r: Repo, key: int, signed: set<int>) {
    forall id :: id in r.notes && r.notes[id].Signature? && r.notes[id].key == key ==> r.notes[id].tree in signed
  }

  ghost predicate DiskUnforged(d: Disk, key: int) { d.repo.Some? ==> Unforged(d.repo.value, key, d.signed) }

  lemma {:induction false} TrustedWasSigned(r: Repo, key: int, signed: set<int>)
    requires Unforged(r, key, signed) && Trusted(r, key)
    ensures HeadTree(r) in signed
  {
    var id := r.head.value;
    assert r.notes[id].Signature? && r.notes[id].tree == HeadTree(r);
  }

  lemma {:induction false} SignKeepsUnforged(r: Repo, signed: set<int>, key: int, expected: Option<int>, c: SignCalls)
    requires Unforged(r, key, signed)
    ensures var d := SignOnDisk(r, signed, key, expected, c).0;
            d.repo.Some? && Unforged(d.repo.value, key, d.signed) && signed <= d.signed
  {
  }

  lemma {:induction false} ReturnKeepsUnforged(d: Disk, key: int, c: ReturnCalls)
    requires DiskUnforged(d, key) && (c.reinstall.clone.Some? ==> Unforged(c.reinstall.clone.value, key, d.signed))
    ensures DiskUnforged(ReturnToKnownGood(d, key, c).0, key) && d.signed <= ReturnToKnownGood(d, key, c).0.signed
  {
    ReinstallKeepsUnforged(d, key, c.reinstall);
  }

  lemma {:induction false} ReinstallKeepsUnforged(d: Disk, key: int, c: ReinstallCalls)
    requires DiskUnforged(d, key) && (c.clone.Some? ==> Unforged(c.clone.value, key, d.signed))
    ensures DiskUnforged(Reinstall(d, key, c).0, key) && d.signed <= Reinstall(d, key, c).0.signed
  {
  }
}
