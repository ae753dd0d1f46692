/**
 Restoring an attachment archive: entries are received into a staging directory, checked against the
 manifest, and swapped with the volume's entries by renames that are undone when one of them fails.
 */
module RestoreSwap {
  import opened Wrappers

  type Bytes = seq<char>
  type Path = seq<string>

  datatype Node = File(content: Bytes) | Dir(children: map<string, Node>)

  type Entries = map<string, Node>

  /** A file's path and content; its size and digest stand for the content. */
  datatype Entry = Entry(path: Path, content: Bytes)

  datatype Member =
    | ManifestMember(parsed: Option<seq<Entry>>)
    | PayloadMember(absolute: bool, parts: Path, regular: bool, readable: bool, content: Bytes)

  /** The relative path below the payload prefix, when the archive's name is safe. */
  function SafeRelative(absolute: bool, parts: Path): Option<Path> {
    if absolute || ".." in parts || parts == [] || parts[0] != "payload" then None else Some(parts[1..])
  }

  /** Create one file, making missing parents; an existing name or a file in the way refuses. */
  function Create(entries: Entries, path: Path, content: Bytes): Option<Entries>
    decreases |path|
  {
    if path == [] then None
    else if |path| == 1 then
      if path[0] in entries then None else Some(entries[path[0] := File(content)])
    else
      var below := if path[0] in entries then entries[path[0]] else Dir(map[]);
      if below.File? then None
      else
        var made := Create(below.children, path[1..], content);
        if made.None? then None else Some(entries[path[0] := Dir(made.value)])
  }

  function Lookup(entries: Entries, path: Path): Option<Bytes>
    decreases |path|
  {
    if path == [] || path[0] !in entries then None
    else match entries[path[0]]
      case File(content) => if |path| == 1 then Some(content) else None
      case Dir(children) => Lookup(children, path[1..])
  }

  /** Creating a file adds that file, which was not there, and touches no other. */
  lemma {:induction false} CreateAddsOneFile(entries: Entries, path: Path, content: Bytes, other: Path)
    requires Create(entries, path, content).Some?
    ensures Lookup(entries, path).None?
    ensures Lookup(Create(entries, path, content).value, other)
            == if other == path then Some(content) else Lookup(entries, other)
    decreases |path|
  {
    if |path| > 1 {
      var below := if path[0] in entries then entries[path[0]] else Dir(map[]);
      var rest := if other == [] then [] else other[1..];
      CreateAddsOneFile(below.children, path[1..], content, rest);
      if other != [] && other[0] == path[0] {
        assert other == path <==> rest == path[1..] by {
          assert other == [other[0]] + rest && path == [path[0]] + path[1..];
        }
      }
    }
  }

  /** The entries hold exactly the listed files, each once. */
  ghost predicate Holds(entries: Entries, listed: seq<Entry>) {
    && (forall path, content :: Lookup(entries, path) == Some(content) <==> Entry(path, content) in listed)
    && (forall i, j :: 0 <= i < j < |listed| ==> listed[i].path != listed[j].path)
  }

  lemma CreateExtendsTheList(entries: Entries, listed: seq<Entry>, path: Path, content: Bytes)
    requires Holds(entries, listed) && Create(entries, path, content).Some?
    ensures Holds(Create(entries, path, content).value, listed + [Entry(path, content)])
  {
    var after := Create(entries, path, content).value;
    var longer := listed + [Entry(path, content)];
    CreateAddsOneFile(entries, path, content, path);
    forall p, c ensures Lookup(after, p) == Some(c) <==> Entry(p, c) in longer {
      CreateAddsOneFile(entries, path, content, p);
      assert Lookup(entries, p) == Some(c) <==> Entry(p, c) in listed;
    }
    forall i | 0 <= i < |listed| ensures listed[i].path != path {
      assert listed[i] == Entry(listed[i].path, listed[i].content);
      assert Lookup(entries, listed[i].path) == Some(listed[i].content);
    }
  }

  /** What extraction has produced after some members: the tree, its files in order, the manifest. */
  datatype Extract = Extract(entries: Entries, seen: seq<Entry>, manifest: Option<seq<Entry>>)

  function ExtractOne(before: Extract, member: Member): Option<Extract> {
    match member
    case ManifestMember(parsed) =>
      if parsed.None? then None else Some(before.(manifest := parsed))
    case PayloadMember(absolute, parts, regular, readable, content) =>
      var relative := SafeRelative(absolute, parts);
      if relative.None? || !regular || !readable then None
      else
        var written := Create(before.entries, relative.value, content);
        if written.None? then None
        else Some(Extract(written.value, before.seen + [Entry(relative.value, content)], before.manifest))
  }

  function Extracted(archive: seq<Member>): Option<Extract> {
    if archive == [] then Some(Extract(map[], [], None))
    else
      var before := Extracted(archive[..|archive| - 1]);
      if before.None? then None else ExtractOne(before.value, archive[|archive| - 1])
  }

  /** Every payload could be created and the last manifest lists exactly those, in their order. */
  predicate Intact(archive: seq<Member>) {
    var result := Extracted(archive);
    result.Some? && result.value.manifest == Some(result.value.seen)
  }

  lemma {:induction false} StaysUnextractable(archive: seq<Member>, count: nat)
    requires count <= |archive| && Extracted(archive[..count]).None?
    ensures Extracted(archive).None?
    decreases |archive| - count
  {
    if count < |archive| {
      assert archive[..count + 1][..count] == archive[..count];
      StaysUnextractable(archive, count + 1);
    } else {
      assert archive[..count] == archive;
    }
  }

  /** How many payloads an archive carries; each is written by one operation of the file system. */
  function Payloads(archive: seq<Member>): nat {
    if archive == [] then 0
    else Payloads(archive[..|archive| - 1]) + if archive[|archive| - 1].PayloadMember? then 1 else 0
  }

  lemma {:induction false} PayloadsGrow(archive: seq<Member>, count: nat)
    requires count <= |archive|
    ensures Payloads(archive[..count]) <= Payloads(archive)
    decreases |archive| - count
  {
    if count < |archive| {
      assert archive[..count + 1][..count] == archive[..count];
      PayloadsGrow(archive, count + 1);
    } else {
      assert archive[..count] == archive;
    }
  }

  /** What was extracted is exactly what was listed on the way, and the manifest is one the archive carries. */
  lemma {:induction false} ExtractedHolds(archive: seq<Member>)
    ensures Extracted(archive).Some? ==>
              var result := Extracted(archive).value;
              Holds(result.entries, result.seen) && (result.manifest.Some? ==> ManifestMember(result.manifest) in archive)
  {
    if archive == [] {
      assert forall path, content :: Lookup(map[], path) != Some(content);
    } else if Extracted(archive).Some? {
      var (n, last) := (|archive| - 1, archive[|archive| - 1]);
      ExtractedHolds(archive[..n]);
      var before := Extracted(archive[..n]).value;
      if last.PayloadMember? {
        CreateExtendsTheList(before.entries, before.seen, SafeRelative(last.absolute, last.parts).value, last.content);
      }
      assert forall member :: member in archive[..n] ==> member in archive;
    }
  }

  /** One more member: what it extracts to, or that nothing after it can mend a failed one. */
  lemma NextMember(archive: seq<Member>, i: nat)
    requires i < |archive| && Extracted(archive[..i]).Some?
    ensures Extracted(archive[..i + 1]) == ExtractOne(Extracted(archive[..i]).value, archive[i])
    ensures Extracted(archive[..i + 1]).None? ==> !Intact(archive)
    ensures Payloads(archive[..i + 1]) == Payloads(archive[..i]) + (if archive[i].PayloadMember? then 1 else 0)
            <= Payloads(archive)
  {
    assert archive[..i + 1][..i] == archive[..i] && archive[..i + 1][i] == archive[i];
    PayloadsGrow(archive, i + 1);
    if Extracted(archive[..i + 1]).None? { StaysUnextractable(archive, i + 1); }
  }

  // ---------- what an ordinary archive extracts to ----------

  /** The archive that carries these files under the payload prefix, and lists them. */
  function ArchiveOf(files: seq<Entry>): seq<Member> {
    Payload(files) + [ManifestMember(Some(files))]
  }

  function Payload(files: seq<Entry>): (members: seq<Member>)
    ensures |members| == |files|
    ensures forall i :: 0 <= i < |files| ==>
              members[i] == PayloadMember(false, ["payload"] + files[i].path, true, true, files[i].content)
  {
    seq(|files|, i requires 0 <= i < |files| =>
          PayloadMember(false, ["payload"] + files[i].path, true, true, files[i].content))
  }

  /** No two of the files are in each other's way, and each has a proper name. */
  ghost predicate Storable(files: seq<Entry>) {
    && (forall i :: 0 <= i < |files| ==> files[i].path != [] && ".." !in files[i].path)
    && (forall i, j :: 0 <= i < |files| && 0 <= j < |files| && i != j ==> !(files[i].path <= files[j].path))
  }

  /** A tree of which every directory leads to a file. */
  predicate Leafy(entries: Entries) {
    forall name :: name in entries ==> LeafyNode(entries[name])
  }

  predicate LeafyNode(node: Node) {
    match node
    case File(_) => true
    case Dir(children) => children != map[] && forall name :: name in children ==> LeafyNode(children[name])
  }

  /** Some file lies on the way to the path, at it or below it. */
  ghost predicate Obstructed(entries: Entries, path: Path) {
    exists at :: Lookup(entries, at).Some? && (at <= path || path <= at)
  }

  lemma {:induction false} LeafyHasFile(node: Node) returns (below: Path)
    requires LeafyNode(node) && node.Dir?
    ensures Lookup(node.children, below).Some?
    decreases node
  {
    var name :| name in node.children;
    if node.children[name].File? {
      below := [name];
    } else {
      var rest := LeafyHasFile(node.children[name]);
      below := [name] + rest;
      assert below[1..] == rest;
    }
  }

  /** A file can be created exactly where no file is in the way. */
  lemma {:induction false} CreatesUnlessObstructed(entries: Entries, path: Path, content: Bytes)
    requires Leafy(entries)
    ensures Create(entries, path, content).Some? <==> path != [] && !Obstructed(entries, path)
    ensures Create(entries, path, content).Some? ==> Leafy(Create(entries, path, content).value)
    decreases |path|
  {
    if path != [] && path[0] in entries {
      var node := entries[path[0]];
      if node.File? {
        assert Lookup(entries, [path[0]]).Some? && [path[0]] <= path;
      } else if |path| == 1 {
        var below := LeafyHasFile(node);
        assert ([path[0]] + below)[1..] == below;
        assert Lookup(entries, [path[0]] + below).Some? && path <= [path[0]] + below;
      } else {
        CreatesUnlessObstructed(node.children, path[1..], content);
        ObstructedBelow(entries, path);
      }
    } else if path != [] {
      if |path| > 1 {
        CreatesUnlessObstructed(map[], path[1..], content);
        assert !Obstructed(map[], path[1..]);
      }
      assert !Obstructed(entries, path);
    }
  }

  lemma ObstructedBelow(entries: Entries, path: Path)
    requires |path| > 1 && path[0] in entries && entries[path[0]].Dir?
    ensures Obstructed(entries, path) <==> Obstructed(entries[path[0]].children, path[1..])
  {
    var (first, rest, children) := (path[0], path[1..], entries[path[0]].children);
    assert path == [first] + rest;
    if at :| Lookup(entries, at).Some? && (at <= path || path <= at) {
      assert at[0] == first && at == [first] + at[1..];
      assert Lookup(children, at[1..]).Some? && (at[1..] <= rest || rest <= at[1..]);
    }
    if at :| Lookup(children, at).Some? && (at <= rest || rest <= at) {
      assert ([first] + at)[1..] == at;
      assert Lookup(entries, [first] + at).Some? && ([first] + at <= path || path <= [first] + at);
    }
  }

  /** Without its listing, the ordinary archive extracts exactly when its files are storable. */
  lemma {:induction false} PayloadExtracts(files: seq<Entry>)
    ensures Extracted(Payload(files)).Some? <==> Storable(files)
    ensures Extracted(Payload(files)).Some? ==>
              && Extracted(Payload(files)).value.seen == files && Extracted(Payload(files)).value.manifest.None?
              && Leafy(Extracted(Payload(files)).value.entries)
  {
    if files != [] {
      var (n, members) := (|files| - 1, Payload(files));
      var (init, last) := (files[..n], files[n]);
      assert members[..n] == Payload(init) && files == init + [last];
      PayloadExtracts(init);
      assert Storable(files) ==> Storable(init) by {
        if Storable(files) { assert forall i :: 0 <= i < n ==> init[i] == files[i]; }
      }
      assert (["payload"] + last.path)[1..] == last.path;
      if Storable(init) {
        var before := Extracted(members[..n]).value;
        ExtractedHolds(members[..n]);
        CreatesUnlessObstructed(before.entries, last.path, last.content);
        LastIsStorable(init, last, before.entries);
      }
    }
  }

  lemma LastIsStorable(init: seq<Entry>, last: Entry, entries: Entries)
    requires Storable(init) && Holds(entries, init)
    ensures Storable(init + [last]) <==> ".." !in last.path && last.path != [] && !Obstructed(entries, last.path)
  {
    var files := init + [last];
    if ".." !in last.path && last.path != [] && !Obstructed(entries, last.path) {
      forall i | 0 <= i < |init| ensures !(init[i].path <= last.path) && !(last.path <= init[i].path) {
        assert init[i] == Entry(init[i].path, init[i].content);
        assert Lookup(entries, init[i].path) == Some(init[i].content);
      }
      assert Storable(files);
    }
    assert files[|init|] == last;
    if Storable(files) {
      forall at | Lookup(entries, at).Some? ensures !(at <= last.path) && !(last.path <= at) {
        assert Entry(at, Lookup(entries, at).value) in init;
        var i :| 0 <= i < |init| && init[i] == Entry(at, Lookup(entries, at).value);
        assert files[i] == init[i];
      }
    }
  }

  /** Backing up and restoring: the archive of any storable files is intact and yields exactly them. */
  lemma ArchiveRoundTrip(files: seq<Entry>)
    ensures Intact(ArchiveOf(files)) <==> Storable(files)
    ensures Intact(ArchiveOf(files)) ==> Holds(Extracted(ArchiveOf(files)).value.entries, files)
    ensures Payloads(ArchiveOf(files)) == |files|
  {
    var archive := ArchiveOf(files);
    assert archive[..|files|] == Payload(files) && archive[|files|] == ManifestMember(Some(files));
    PayloadExtracts(files);
    PayloadsOfPayload(files);
    ExtractedHolds(archive);
  }

  lemma {:induction false} PayloadsOfPayload(files: seq<Entry>)
    ensures Payloads(Payload(files)) == |files|
  {
    if files != [] {
      var n := |files| - 1;
      assert Payload(files)[..n] == Payload(files[..n]);
      PayloadsOfPayload(files[..n]);
    }
  }

  /** One member that is absolute, climbs, lies elsewhere, or is no readable regular file, and nothing is restored. */
  lemma {:induction false} BadMemberIsNeverReceived(archive: seq<Member>, i: nat)
    requires i < |archive| && archive[i].PayloadMember?
    requires || archive[i].absolute || ".." in archive[i].parts || !archive[i].regular || !archive[i].readable
             || !(["payload"] <= archive[i].parts) || archive[i].parts == ["payload"]
    ensures Extracted(archive).None? && !Intact(archive)
  {
    assert archive[..i + 1][..i] == archive[..i];
    assert Extracted(archive[..i + 1]).None?;
    StaysUnextractable(archive, i + 1);
  }

  /** No operation from `start` up to `end` fails. */
  ghost predicate Smooth(fails: set<nat>, start: nat, end: nat) {
    forall i :: i in fails ==> !(start <= i < end)
  }

  /** Every original entry is still on the volume, set aside or in its place. */
  ghost predicate Keeps(original: Entries, root: Entries, aside: Entries) {
    && aside.Keys <= original.Keys
    && forall name :: name in original ==>
         if name in aside then aside[name] == original[name] else name in root && root[name] == original[name]
  }

  /** What a process killed at this point would leave: the root's entries and those set aside. */
  datatype Moment = Moment(root: Entries, aside: Entries)

  function Aside(rollback: Option<Entries>): Entries {
    if rollback.Some? then rollback.value else map[]
  }

  /** Every original is still there, or all staged entries have replaced them. */
  ghost predicate Safe(original: Entries, staged: Entries, moment: Moment) {
    moment.root == staged || Keeps(original, moment.root, moment.aside)
  }

  /** One rename, or a change of the rollback directory alone. */
  ghost predicate OneStep(a: Moment, b: Moment) {
    a.root == b.root || exists name: string :: Renamed(a, b, name)
  }

  ghost predicate Renamed(a: Moment, b: Moment, name: string) {
    a.root - {name} == b.root - {name} && a.aside - {name} == b.aside - {name}
  }

  /** The later moments extend the earlier ones step by step, and whatever was added is safe. */
  ghost predicate Safely(original: Entries, staged: Entries, before: seq<Moment>, after: seq<Moment>) {
    && before != [] && before <= after
    && forall i :: |before| <= i < |after| ==> SafeAt(original, staged, after, i)
  }

  ghost predicate SafeAt(original: Entries, staged: Entries, moments: seq<Moment>, i: nat)
    requires 0 < i < |moments|
  {
    Safe(original, staged, moments[i]) && OneStep(moments[i - 1], moments[i])
  }

  /** Killed at any moment between, a process leaves every original, or all staged entries; no step is left out. */
  lemma SafelyMeans(original: Entries, staged: Entries, before: seq<Moment>, after: seq<Moment>, i: nat)
    requires Safely(original, staged, before, after) && |before| <= i < |after|
    ensures OneStep(after[i - 1], after[i])
    ensures after[i].root == staged
            || forall name :: name in original ==>
                 || (name in after[i].aside && after[i].aside[name] == original[name])
                 || (name in after[i].root && after[i].root[name] == original[name])
  {
    assert SafeAt(original, staged, after, i);
  }

  lemma SafelyMore(original: Entries, staged: Entries, before: seq<Moment>, after: seq<Moment>, moment: Moment)
    requires Safely(original, staged, before, after) && Safe(original, staged, moment)
    requires after != [] && OneStep(after[|after| - 1], moment)
    ensures Safely(original, staged, before, after + [moment])
  {
    var longer := after + [moment];
    forall i | |before| <= i < |longer| ensures SafeAt(original, staged, longer, i) {
      if i < |after| { assert SafeAt(original, staged, after, i); }
    }
  }

  /** The originals are in place and nothing is set aside. */
  ghost predicate Restored(original: Entries, root: Entries, rollback: Option<Entries>) {
    root == original && rollback == Some(map[])
  }

  /** Rename number `f` is the first of the swap's operations to fail. */
  ghost predicate FailsAt(fails: set<nat>, start: nat, renames: nat, f: nat) {
    start < f <= start + renames && f in fails && Smooth(fails, start, f)
  }

  /**
     What a swap must leave behind under a schedule of failures. Operation `start` makes the rollback
     directory and the next ones rename. If rename `f` fails, the operations after it undo the
     `f - start - 1` renames before it, and the originals are back exactly when all of those work.
   */
  ghost predicate SwapLeaves(fails: set<nat>, start: nat, original: Entries, staged: Entries,
                             root: Entries, rollback: Option<Entries>) {
    var renames := |original| + |staged|;
    && (Smooth(fails, start, start + 1 + renames) ==> root == staged)
    && (start in fails ==> root == original && rollback == None)
    && (forall f: nat :: FailsAt(fails, start, renames, f) ==>
          && rollback.Some? && Keeps(original, root, rollback.value)
          && (Restored(original, root, rollback) <==> Smooth(fails, f + 1, f + 1 + (f - start - 1))))
  }

  /** A swap is smooth, fails at once, or has a first rename that fails: `SwapLeaves` covers every schedule. */
  lemma {:induction false} EveryScheduleIsCovered(fails: set<nat>, start: nat, renames: nat)
    ensures || Smooth(fails, start, start + 1 + renames) || start in fails
            || exists f: nat :: FailsAt(fails, start, renames, f)
  {
    if renames > 0 {
      var fewer: nat := renames - 1;
      EveryScheduleIsCovered(fails, start, fewer);
      if f: nat :| FailsAt(fails, start, fewer, f) {
        assert FailsAt(fails, start, renames, f);
      } else if start !in fails && start + renames in fails {
        assert FailsAt(fails, start, renames, start + renames);
      }
    }
  }

  lemma SwapLeavesAt(fails: set<nat>, start: nat, original: Entries, staged: Entries, root: Entries, aside: Entries,
                     f: nat)
    requires FailsAt(fails, start, |original| + |staged|, f)
    requires Keeps(original, root, aside)
    requires Restored(original, root, Some(aside)) <==> Smooth(fails, f + 1, f + 1 + (f - start - 1))
    ensures SwapLeaves(fails, start, original, staged, root, Some(aside))
  {
    var renames := |original| + |staged|;
    forall g: nat | FailsAt(fails, start, renames, g) ensures g == f {
      assert !(f < g) && !(g < f);
    }
  }

  /** A swap that fails at once, or does not fail a rename. */
  lemma SwapLeavesOtherwise(fails: set<nat>, start: nat, original: Entries, staged: Entries, root: Entries,
                            rollback: Option<Entries>)
    requires || (start in fails && root == original && rollback == None)
             || (Smooth(fails, start, start + 1 + |original| + |staged|) && root == staged)
    ensures SwapLeaves(fails, start, original, staged, root, rollback)
  {
    assert Smooth(fails, start, start + 1 + |original| + |staged|) ==> start !in fails;
  }

  lemma SmoothInParts(fails: set<nat>, start: nat, renames: nat)
    ensures Smooth(fails, start, start + 1 + renames) <==> start !in fails && Smooth(fails, start + 1, start + 1 + renames)
    ensures Smooth(fails, start, start + 2 + renames)
            <==> Smooth(fails, start, start + 1 + renames) && start + 1 + renames !in fails
  {
  }

  /**
     The attachment volume. The staging and rollback directories lie in its root under random names;
     `root` is everything else there.
   */
  class Volume {
    var root: Entries
    var staging: Option<Entries>
    var rollback: Option<Entries>
    /** The operations of the file system done so far, and which fail; a run has finitely many. */
    var operations: nat
    const fails: set<nat>
    /** Whether the staging directory can be removed; if not, its errors are ignored. */
    const removable: bool
    /** Root and rollback directory after every change to either. */
    ghost var moments: seq<Moment>

    constructor (root: Entries, fails: set<nat>, removable: bool)
      ensures this.root == root && this.fails == fails && this.removable == removable && operations == 0
      ensures staging == None && rollback == None && moments == [Moment(root, map[])]
    {
      this.root, this.fails, this.removable, operations := root, fails, removable, 0;
      staging, rollback, moments := None, None, [Moment(root, map[])];
    }

    /** The history is up to date. */
    ghost predicate Shown()
      reads this
    {
      moments != [] && moments[|moments| - 1] == Moment(root, Aside(rollback))
    }

    /** A change of the root or the rollback directory took effect. */
    ghost method Observe(original: Entries, staged: Entries, before: seq<Moment>)
      requires moments != [] && OneStep(moments[|moments| - 1], Moment(root, Aside(rollback)))
      requires Safely(original, staged, before, moments)
      requires Safe(original, staged, Moment(root, Aside(rollback)))
      modifies this`moments
      ensures Shown() && Safely(original, staged, before, moments)
    {
      SafelyMore(original, staged, before, moments, Moment(root, Aside(rollback)));
      moments := moments + [Moment(root, Aside(rollback))];
    }

    /** The next operation of the file system works unless the schedule says otherwise. */
    method Works() returns (works: bool)
      modifies this`operations
      ensures works <==> old(operations) !in fails
      ensures operations == old(operations) + 1
    {
      works := operations !in fails;
      operations := operations + 1;
    }

    /** Extract the payload and compare what arrived with the manifest, wherever that stood. */
    method ReceiveArchive(archive: seq<Member>) returns (observed: Option<seq<Entry>>)
      requires staging == Some(map[])
      modifies this`staging, this`operations
      ensures staging.Some?
      ensures observed.Some? <==>
                Intact(archive) && Smooth(fails, old(operations), old(operations) + Payloads(archive))
      ensures observed.Some? ==>
                && operations == old(operations) + Payloads(archive)
                && staging.value == Extracted(archive).value.entries
                && Holds(staging.value, observed.value)
                && ManifestMember(observed) in archive
    {
      var seen: seq<Entry>, manifest: Option<seq<Entry>> := [], None;
      for i := 0 to |archive|
        invariant staging.Some? && Extracted(archive[..i]) == Some(Extract(staging.value, seen, manifest))
        invariant operations == old(operations) + Payloads(archive[..i])
        invariant Smooth(fails, old(operations), operations)
      {
        NextMember(archive, i);
        if archive[i].ManifestMember? {
          if archive[i].parsed.None? { return None; }
          manifest := archive[i].parsed;
        } else {
          var entry := ReceivePayload(archive[i]);
          if entry.None? { return None; }
          seen := seen + [entry.value];
        }
      }
      assert archive[..|archive|] == archive;
      ExtractedHolds(archive);
      if manifest.None? || seen != manifest.value { return None; }
      return Some(seen);
    }

    /** Write one payload to the staging directory, or refuse the archive. */
    method ReceivePayload(member: Member) returns (entry: Option<Entry>)
      requires staging.Some? && member.PayloadMember?
      modifies this`staging, this`operations
      ensures staging.Some?
      ensures var extract := Extract(old(staging).value, [], None);
              entry.Some? <==> ExtractOne(extract, member).Some? && old(operations) !in fails
      ensures entry.Some? ==>
                && operations == old(operations) + 1
                && SafeRelative(member.absolute, member.parts) == Some(entry.value.path)
                && entry.value.content == member.content
                && Create(old(staging).value, entry.value.path, entry.value.content) == staging
    {
      var relative := SafeRelative(member.absolute, member.parts);
      if relative.None? || !member.regular || !member.readable { return None; }
      var written := Create(staging.value, relative.value, member.content);
      var works := Works();
      if written.None? || !works { return None; }
      staging := written;
      return Some(Entry(relative.value, member.content));
    }

    /**
     Swap the staged entries for the root's. For every schedule of failures: without a failed rename the
     root ends with exactly the staged entries; after one, it ends with exactly the originals and nothing
     set aside if and only if every undoing rename works. Killed anywhere, it leaves every original on the
     volume, unless all staged entries are in place: old bytes are erased only behind a finished swap.
     */
    method ReplacePayload() returns (ok: bool)
      requires Shown()
      requires staging.Some? && rollback.None?
      modifies this
      ensures Shown()
      ensures SwapLeaves(fails, old(operations), old(root), old(staging).value, root, rollback)
      ensures ok <==> Smooth(fails, old(operations), old(operations) + 2 + |old(root)| + |old(staging).value|)
      ensures ok ==> root == old(staging).value && rollback == None
      ensures ok && removable ==> staging.None?
      ensures Safely(old(root), old(staging).value, old(moments), moments)
    {
      ghost var original, staged, before := root, staging.value, moments;
      ghost var (start, renames) := (operations, |original| + |staged|);
      SmoothInParts(fails, start, renames);
      var made := Works();
      if !made {
        SwapLeavesOtherwise(fails, start, original, staged, root, rollback);
        return false;
      }
      rollback := Some(map[]);
      Observe(original, staged, before);
      var moved := Exchange(before);
      RemoveStaging();
      if !moved { return false; }
      ok := EraseRollback(original, staged, before);
      SwapLeavesOtherwise(fails, start, original, staged, root, rollback);
    }

    /** All renames of the swap, undone when one of them fails. */
    method Exchange(ghost before: seq<Moment>) returns (moved: bool)
      requires Shown()
      requires staging.Some? && rollback == Some(map[]) && Safely(root, staging.value, before, moments)
      requires operations > 0 && operations - 1 !in fails
      modifies this`root, this`staging, this`rollback, this`operations, this`moments
      ensures Shown()
      ensures rollback.Some? && Safely(old(root), old(staging).value, before, moments)
      ensures moved <==> Smooth(fails, old(operations), old(operations) + |old(root)| + |old(staging).value|)
      ensures moved ==>
                root == old(staging).value && operations == old(operations) + |old(root)| + |old(staging).value|
      ensures !moved ==> SwapLeaves(fails, old(operations) - 1, old(root), old(staging).value, root, rollback)
    {
      ghost var start: nat, original, staged := operations - 1, root, staging.value;
      var movedOld, undisturbed := SetAside(original, staged, before);
      var movedNew: seq<string> := [];
      if undisturbed {
        movedNew, undisturbed := BringIn(original, before);
      }
      if !undisturbed {
        ghost var f := operations - 1;
        assert f == start + 1 + |movedOld| + |movedNew|;
        assert FailsAt(fails, start, |original| + |staged|, f);
        Undo(movedNew, movedOld, staged, original, before);
        SwapLeavesAt(fails, start, original, staged, root, rollback.value, f);
      }
      return undisturbed;
    }

    /** Undo every rename, last first. The originals are back exactly when all of these renames work. */
    method Undo(movedNew: seq<string>, movedOld: seq<string>, ghost staged: Entries, ghost original: Entries,
                ghost before: seq<Moment>)
      requires Shown()
      requires Safely(original, staged, before, moments)
      requires staging.Some? && rollback.Some?
      requires if movedNew == [] then Parted(original, root, rollback.value, movedOld)
               else Parted(staged, staging.value, root, movedNew) && Parted(original, map[], rollback.value, movedOld)
      modifies this`root, this`staging, this`rollback, this`operations, this`moments
      ensures Shown()
      ensures rollback.Some? && Keeps(original, root, rollback.value)
      ensures Safely(original, staged, before, moments)
      ensures Restored(original, root, rollback)
              <==> Smooth(fails, old(operations), old(operations) + |movedNew| + |movedOld|)
    {
      if movedNew != [] { PartedAll(original, rollback.value, movedOld); }
      var back := TakeBack(movedNew, staged, original, before);
      if back {
        back := PutBack(movedOld, staged, original, before);
      } else {
        PartedKeeps(original, map[], rollback.value, movedOld);
      }
    }

    /** Fill a disposable root that must hold nothing else; a failure is left to its owner. */
    method PopulateEmptyStaging() returns (ok: bool)
      requires Shown()
      requires staging.Some? && rollback.None?
      modifies this`root, this`staging, this`operations, this`moments
      ensures Shown()
      ensures ok <==> old(root) == map[]
                      && Smooth(fails, old(operations), old(operations) + |old(staging).value| + 1)
      ensures ok ==> root == old(staging).value && staging.None?
      ensures old(root) != map[] ==> root == old(root)
      ensures Safely(old(root), old(staging).value, old(moments), moments)
    {
      if root != map[] { return false; }
      var _, moved := BringIn(Aside(rollback), moments);
      if !moved { return false; }
      var removed := Works();
      if !removed { return false; }
      staging := None;
      return true;
    }

    /**
     The whole restore. Operation zero makes the staging directory, then come the payloads, then the swap.
     In replace mode an archive that is not intact or not fully received changes nothing, and otherwise the
     root is what the swap leaves under the schedule, with the staged entries the manifest's files.
     No process killed in between loses an original before all the manifest's files are in place.
     */
    method RestoreAttachments(mode: string, archive: seq<Member>)
      returns (ok: bool, ghost observed: seq<Entry>)
      requires Shown()
      requires staging.None? && rollback.None?
      modifies this
      ensures Shown()
      ensures var swap := old(operations) + 1 + Payloads(archive);
              var received := Intact(archive) && Smooth(fails, old(operations), swap);
              && (mode !in ["replace", "stage"] || !received ==> !ok && root == old(root) && rollback == None)
              && (mode == "replace" && received ==>
                    && var staged := Extracted(archive).value.entries;
                       SwapLeaves(fails, swap, old(root), staged, root, rollback)
                       && (ok <==> Smooth(fails, swap, swap + 2 + |old(root)| + |staged|))
                       && Holds(staged, observed) && ManifestMember(Some(observed)) in archive)
              && (mode == "stage" && received ==>
                    (ok <==> old(root) == map[] && Smooth(fails, swap, swap + |Extracted(archive).value.entries| + 1)))
      ensures ok ==> rollback == None && Holds(root, observed) && ManifestMember(Some(observed)) in archive
      ensures mode == "stage" && old(root) != map[] ==> root == old(root)
      ensures removable ==> staging.None?
      ensures if Intact(archive) then Safely(old(root), Extracted(archive).value.entries, old(moments), moments)
              else moments == old(moments)
    {
      observed := [];
      if mode !in ["replace", "stage"] { return false, []; }
      ghost var start := operations;
      var made := Works();
      if !made { return false, []; }
      staging := Some(map[]);
      var received := ReceiveArchive(archive);
      if received.None? {
        RemoveStaging();
        return false, [];
      }
      observed := received.value;
      if mode == "stage" {
        ok := PopulateEmptyStaging();
      } else {
        ok := ReplacePayload();
      }
      if !ok { RemoveStaging(); }
    }

    /** One rename into the rollback directory. */
    method MoveAside(name: string, ghost movedOld: seq<string>, ghost original: Entries, ghost staged: Entries,
                     ghost before: seq<Moment>)
      requires Shown()
      requires rollback.Some? && Parted(original, root, rollback.value, movedOld) && name in root
      requires Safely(original, staged, before, moments)
      modifies this`root, this`rollback, this`moments
      ensures Shown()
      ensures rollback.Some? && Parted(original, root, rollback.value, movedOld + [name])
      ensures root.Keys == old(root.Keys) - {name} && Safely(original, staged, before, moments)
    {
      MoveOne(original, root, rollback.value, movedOld, name);
      rollback, root := Some(rollback.value[name := root[name]]), root - {name};
      PartedKeeps(original, root, rollback.value, movedOld + [name]);
      assert Renamed(moments[|moments| - 1], Moment(root, Aside(rollback)), name);
      Observe(original, staged, before);
    }

    /** One rename into the root, with all originals set aside. */
    method MoveIn(name: string, ghost movedNew: seq<string>, ghost original: Entries, ghost staged: Entries,
                  ghost before: seq<Moment>)
      requires Shown()
      requires staging.Some? && Parted(staged, staging.value, root, movedNew) && name in staging.value
      requires Aside(rollback) == original && Safely(original, staged, before, moments)
      modifies this`root, this`staging, this`moments
      ensures Shown()
      ensures staging.Some? && Parted(staged, staging.value, root, movedNew + [name])
      ensures staging.value.Keys == old(staging).value.Keys - {name} && Safely(original, staged, before, moments)
    {
      MoveOne(staged, staging.value, root, movedNew, name);
      root, staging := root[name := staging.value[name]], Some(staging.value - {name});
      assert Renamed(moments[|moments| - 1], Moment(root, Aside(rollback)), name);
      Observe(original, staged, before);
    }

    /** Rename every entry of the root into the rollback directory, until one fails. */
    method SetAside(ghost original: Entries, ghost staged: Entries, ghost before: seq<Moment>)
      returns (movedOld: seq<string>, moved: bool)
      requires Shown()
      requires rollback == Some(map[]) && root == original && Safely(original, staged, before, moments)
      modifies this`root, this`rollback, this`operations, this`moments
      ensures Shown()
      ensures Safely(original, staged, before, moments)
      ensures rollback.Some? && Parted(original, root, rollback.value, movedOld)
      ensures Smooth(fails, old(operations), old(operations) + |movedOld|) && |movedOld| <= |original|
      ensures if moved then root == map[] && rollback.value == original && |movedOld| == |original|
              else |movedOld| < |original| && old(operations) + |movedOld| in fails
      ensures operations == old(operations) + |movedOld| + if moved then 0 else 1
    {
      movedOld, moved := [], true;
      assert Parted(original, root, rollback.value, movedOld);
      var rest := root.Keys;
      while rest != {}
        invariant rollback.Some? && Parted(original, root, rollback.value, movedOld)
        invariant rest == root.Keys && moved
        invariant Shown()
        invariant Safely(original, staged, before, moments)
        invariant operations == old(operations) + |movedOld| && Smooth(fails, old(operations), operations)
        decreases rest
      {
        var name :| name in rest;
        moved := Works();
        if !moved {
          PartedLeft(original, root, rollback.value, movedOld);
          return;
        }
        MoveAside(name, movedOld, original, staged, before);
        movedOld, rest := movedOld + [name], rest - {name};
      }
      NothingLeft(root);
      PartedAll(original, rollback.value, movedOld);
    }

    /** Rename every staged entry into the emptied root, until one fails. */
    method BringIn(ghost original: Entries, ghost before: seq<Moment>) returns (movedNew: seq<string>, moved: bool)
      requires Shown()
      requires staging.Some? && root == map[] && Aside(rollback) == original
      requires Safely(original, staging.value, before, moments)
      modifies this`root, this`staging, this`operations, this`moments
      ensures Shown()
      ensures Safely(original, old(staging).value, before, moments)
      ensures staging.Some? && Parted(old(staging).value, staging.value, root, movedNew)
      ensures Smooth(fails, old(operations), old(operations) + |movedNew|) && |movedNew| <= |old(staging).value|
      ensures if moved then staging == Some(map[]) && root == old(staging).value && |movedNew| == |old(staging).value|
              else |movedNew| < |old(staging).value| && old(operations) + |movedNew| in fails
      ensures operations == old(operations) + |movedNew| + if moved then 0 else 1
    {
      movedNew, moved := [], true;
      var rest := staging.value.Keys;
      while rest != {}
        invariant staging.Some? && Parted(old(staging).value, staging.value, root, movedNew)
        invariant rest == staging.value.Keys && moved
        invariant Shown()
        invariant Safely(original, old(staging).value, before, moments)
        invariant operations == old(operations) + |movedNew| && Smooth(fails, old(operations), operations)
        decreases rest
      {
        var name :| name in rest;
        moved := Works();
        if !moved {
          PartedLeft(old(staging).value, staging.value, root, movedNew);
          return;
        }
        MoveIn(name, movedNew, original, old(staging).value, before);
        movedNew, rest := movedNew + [name], rest - {name};
      }
      assert staging.value == map[];
      PartedAll(old(staging).value, root, movedNew);
    }

    /** One rename back into the staging directory. */
    method MoveOut(name: string, ghost left: seq<string>, ghost original: Entries, ghost staged: Entries,
                   ghost before: seq<Moment>)
      requires Shown() && staging.Some? && rollback == Some(original) && Safely(original, staged, before, moments)
      requires left != [] && left[|left| - 1] == name && Parted(staged, staging.value, root, left)
      modifies this`root, this`staging, this`moments
      ensures Shown() && staging.Some? && Safely(original, staged, before, moments)
      ensures Parted(staged, staging.value, root, left[..|left| - 1])
    {
      staging, root := Some(staging.value[name := root[name]]), root - {name};
      assert Renamed(moments[|moments| - 1], Moment(root, Aside(rollback)), name);
      Observe(original, staged, before);
    }

    /** One rename out of the rollback directory. */
    method MoveBack(name: string, ghost left: seq<string>, ghost original: Entries, ghost staged: Entries,
                    ghost before: seq<Moment>)
      requires Shown() && rollback.Some? && Safely(original, staged, before, moments)
      requires left != [] && left[|left| - 1] == name && Parted(original, root, rollback.value, left)
      modifies this`root, this`rollback, this`moments
      ensures Shown() && rollback.Some? && Safely(original, staged, before, moments)
      ensures Parted(original, root, rollback.value, left[..|left| - 1])
    {
      root, rollback := root[name := rollback.value[name]], Some(rollback.value - {name});
      PartedKeeps(original, root, rollback.value, left[..|left| - 1]);
      assert Renamed(moments[|moments| - 1], Moment(root, Aside(rollback)), name);
      Observe(original, staged, before);
    }

    /** Undo `BringIn`, last rename first; it stops only at a rename that fails. */
    method TakeBack(movedNew: seq<string>, ghost staged: Entries, ghost original: Entries, ghost before: seq<Moment>)
      returns (undone: bool)
      requires Shown()
      requires staging.Some? && Safely(original, staged, before, moments)
      requires movedNew == [] || (Parted(staged, staging.value, root, movedNew) && rollback == Some(original))
      modifies this`root, this`staging, this`operations, this`moments
      ensures Shown()
      ensures Safely(original, staged, before, moments)
      ensures undone <==> Smooth(fails, old(operations), old(operations) + |movedNew|)
      ensures undone ==> operations == old(operations) + |movedNew|
      ensures undone ==> root == if movedNew == [] then old(root) else map[]
      ensures !undone ==> root != map[]
    {
      undone := true;
      var left := movedNew;
      while left != []
        invariant movedNew == [] ==> root == old(root)
        invariant Shown()
        invariant Safely(original, staged, before, moments)
        invariant staging.Some? && (movedNew == [] || Parted(staged, staging.value, root, left))
        invariant undone && |left| <= |movedNew| && operations == old(operations) + |movedNew| - |left|
        invariant Smooth(fails, old(operations), operations)
        decreases |left|
      {
        var name := left[|left| - 1];
        undone := Works();
        if !undone { return; }
        MoveOut(name, left, original, staged, before);
        left := left[..|left| - 1];
      }
    }

    /** Undo `SetAside` in the same way. */
    method PutBack(movedOld: seq<string>, ghost staged: Entries, ghost original: Entries, ghost before: seq<Moment>)
      returns (undone: bool)
      requires Shown()
      requires Safely(original, staged, before, moments)
      requires rollback.Some? && Parted(original, root, rollback.value, movedOld)
      modifies this`root, this`rollback, this`operations, this`moments
      ensures Shown()
      ensures Safely(original, staged, before, moments)
      ensures undone <==> Smooth(fails, old(operations), old(operations) + |movedOld|)
      ensures rollback.Some? && Keeps(original, root, rollback.value)
      ensures undone <==> rollback == Some(map[])
      ensures undone ==> root == original
    {
      undone := true;
      var left := movedOld;
      while left != []
        invariant rollback.Some? && Parted(original, root, rollback.value, left)
        invariant Shown()
        invariant Safely(original, staged, before, moments)
        invariant undone && |left| <= |movedOld| && operations == old(operations) + |movedOld| - |left|
        invariant Smooth(fails, old(operations), operations)
        decreases |left|
      {
        var name := left[|left| - 1];
        undone := Works();
        if !undone {
          PartedKeeps(original, root, rollback.value, left);
          return;
        }
        MoveBack(name, left, original, staged, before);
        left := left[..|left| - 1];
      }
      PartedKeeps(original, root, rollback.value, left);
    }

    /** Errors are ignored, so some of the staging directory may stay behind. */
    method RemoveStaging()
      modifies this`staging
      ensures staging.Some? ==> old(staging).Some? && staging.value.Keys <= old(staging).value.Keys
      ensures removable ==> staging.None?
    {
      var gone: bool, left: set<string> := *, *;
      staging := if gone || removable || staging.None? then None else Some(staging.value - left);
    }

    /** A removal that fails part of the way raises. */
    method EraseRollback(ghost original: Entries, ghost staged: Entries, ghost before: seq<Moment>)
      returns (erased: bool)
      requires Shown()
      requires rollback.Some? && root == staged && Safely(original, staged, before, moments)
      modifies this`rollback, this`operations, this`moments
      ensures Shown()
      ensures Safely(original, staged, before, moments)
      ensures erased <==> rollback.None?
      ensures erased <==> old(operations) !in fails
      ensures rollback.Some? ==> rollback.value.Keys <= old(rollback).value.Keys
    {
      var left: set<string> := *;
      erased := Works();
      rollback := if erased then None else Some(rollback.value - left);
      Observe(original, staged, before);
    }
  }

  /** `moved` lists, in order, the renames that took entries of `whole` from `stay` to `gone`. */
  ghost predicate Parted(whole: Entries, stay: Entries, gone: Entries, moved: seq<string>)
    decreases |moved|
  {
    if moved == [] then stay == whole && gone == map[]
    else
      var name := moved[|moved| - 1];
      && name in gone && name !in stay
      && Parted(whole, stay[name := gone[name]], gone - {name}, moved[..|moved| - 1])
  }

  /** Nothing is lost or doubled on the way, and every rename counts once. */
  lemma {:induction false} PartedMeans(whole: Entries, stay: Entries, gone: Entries, moved: seq<string>)
    requires Parted(whole, stay, gone, moved)
    ensures stay.Keys !! gone.Keys && stay + gone == whole
    ensures |moved| + |stay| == |whole|
    ensures gone == map[] <==> moved == []
    decreases |moved|
  {
    if moved != [] {
      var name := moved[|moved| - 1];
      PartedMeans(whole, stay[name := gone[name]], gone - {name}, moved[..|moved| - 1]);
      HandOver(stay, gone, name);
      OneMoreKey(stay, name, gone[name]);
    }
  }

  lemma PartedKeeps(whole: Entries, stay: Entries, gone: Entries, moved: seq<string>)
    requires Parted(whole, stay, gone, moved)
    ensures Keeps(whole, stay, gone)
  {
    PartedMeans(whole, stay, gone, moved);
  }

  lemma PartedAll(whole: Entries, gone: Entries, moved: seq<string>)
    requires Parted(whole, map[], gone, moved)
    ensures gone == whole && |moved| == |whole|
  {
    PartedMeans(whole, map[], gone, moved);
  }

  lemma PartedLeft(whole: Entries, stay: Entries, gone: Entries, moved: seq<string>)
    requires Parted(whole, stay, gone, moved) && stay.Keys != {}
    ensures |moved| < |whole|
  {
    PartedMeans(whole, stay, gone, moved);
    assert |stay| == |stay.Keys|;
  }

  lemma NothingLeft(entries: Entries)
    requires entries.Keys == {}
    ensures entries == map[]
  {
  }

  lemma MoveOne(whole: Entries, stay: Entries, gone: Entries, moved: seq<string>, name: string)
    requires Parted(whole, stay, gone, moved) && name in stay
    ensures Parted(whole, stay - {name}, gone[name := stay[name]], moved + [name])
  {
    PartedMeans(whole, stay, gone, moved);
    OutAndIn(stay, name);
    InAndOut(gone, name, stay[name]);
    assert (moved + [name])[..|moved|] == moved;
  }

  lemma OutAndIn(entries: Entries, name: string)
    requires name in entries
    ensures (entries - {name})[name := entries[name]] == entries
  {
  }

  lemma InAndOut(entries: Entries, name: string, node: Node)
    requires name !in entries
    ensures entries[name := node] - {name} == entries
  {
  }

  lemma OneMoreKey(entries: Entries, name: string, node: Node)
    requires name !in entries
    ensures |entries[name := node]| == |entries| + 1
  {
    assert entries[name := node].Keys == entries.Keys + {name};
    assert |entries[name := node].Keys| == |entries.Keys| + 1;
  }

  lemma HandOver(stay: Entries, gone: Entries, name: string)
    requires name in gone && name !in stay
    requires stay[name := gone[name]].Keys !! (gone - {name}).Keys
    ensures stay.Keys !! gone.Keys
    ensures stay[name := gone[name]] + (gone - {name}) == stay + gone
  {
    var stays, goes := stay[name := gone[name]], gone - {name};
    assert stay.Keys == stays.Keys - {name} && gone.Keys == goes.Keys + {name};
    assert forall key :: key in stay.Keys ==> key !in gone.Keys;
  }
}
