/**
 Tar archives as Python's `tarfile` reads them: the last member of a name is taken, and links are
 followed to the bytes of another member.
 */
module Archives {
  import opened Paths
  import opened Strings
  import JsonSyntax

  type Bytes = JsonSyntax.Bytes

  /** What a member is; `Special` are directories and devices, which have no bytes. */
  datatype File = Regular(data: Bytes) | SymLink(target: string) | HardLink(target: string) | Special
  {
    predicate IsLink() {
      SymLink? || HardLink?
    }
  }

  datatype Member = Member(name: string, file: File)

  // ---------------------------------------------------------------- reading

  /** `getmember`: where the last member of that name is, or -1. */
  function IndexOf(tar: seq<Member>, name: string): (k: int)
    ensures -1 <= k < |tar| && (k != -1 ==> tar[k].name == DropSlashes(name))
    ensures forall j | k < j < |tar| :: tar[j].name != DropSlashes(name)
  {
    if tar == [] then -1
    else if tar[|tar| - 1].name == DropSlashes(name) then |tar| - 1
    else IndexOf(tar[..|tar| - 1], name)
  }

  /** The last of the first `limit` places that hold `x`, or -1. */
  function LastIn(places: seq<string>, x: string, limit: nat): (k: int)
    requires limit <= |places|
    ensures -1 <= k < limit && (k != -1 ==> places[k] == x)
    ensures forall j | k < j < limit :: places[j] != x
  {
    if limit == 0 then -1 else if places[limit - 1] == x then limit - 1 else LastIn(places, x, limit - 1)
  }

  /** Where the names of the members lead to. */
  function Places(tar: seq<Member>): (places: seq<string>)
    ensures |places| == |tar| && forall i | 0 <= i < |tar| :: places[i] == Normalize(tar[i].name)
  {
    seq(|tar|, i requires 0 <= i < |tar| => Normalize(tar[i].name))
  }

  /** Where the last of the first `limit` members is whose name leads to the path, or -1. */
  function PathIndex(tar: seq<Member>, path: string, limit: nat): int
    requires limit <= |tar|
  {
    LastIn(Places(tar), Normalize(path), limit)
  }

  /** The path that a symbolic link names, from the directory of the link. */
  function LinkPath(m: Member): string
    requires m.file.SymLink?
  {
    var dir := DirName(m.name);
    if dir == "" then m.file.target else if m.file.target == "" then dir else dir + "/" + m.file.target
  }

  /** The member that a link leads to: anywhere for a symbolic link, before the link for a hard one. */
  function LinkTarget(tar: seq<Member>, k: nat): (t: int)
    requires k < |tar| && tar[k].file.IsLink()
    ensures -1 <= t < |tar|
  {
    if tar[k].file.SymLink? then PathIndex(tar, LinkPath(tar[k]), |tar|)
    else PathIndex(tar, tar[k].file.target, k)
  }

  /** What reading a member gives: its bytes, None, a KeyError, or recursion without end. */
  datatype Extracted = Data(data: Bytes) | NoFile | LinkMissing | LinkLoop

  predicate IsIndex(tar: seq<Member>, i: nat) {
    i < |tar|
  }

  function Indices(tar: seq<Member>): set<nat> {
    set i: nat | i < |tar| && IsIndex(tar, i)
  }

  /** `extractfile`; `seen` are the links followed so far, and to meet one again is to go on for ever. */
  function Extract(tar: seq<Member>, k: nat, seen: set<nat>): Extracted
    requires k < |tar|
    decreases Indices(tar) - seen
  {
    match tar[k].file
    case Regular(data) => Data(data)
    case Special => NoFile
    case _ =>
      if k in seen then LinkLoop
      else
        var t := LinkTarget(tar, k);
        if t == -1 then LinkMissing
        else
          assert k in Indices(tar) - seen && k !in Indices(tar) - (seen + {k});
          Extract(tar, t, seen + {k})
  }

  datatype Fetched = Absent | Found(name: string, content: Extracted)

  /** `getmember` and `extractfile`. */
  function Fetch(tar: seq<Member>, name: string): Fetched {
    var k := IndexOf(tar, name);
    if k == -1 then Absent else Found(tar[k].name, Extract(tar, k, {}))
  }

  /** The first hard link on the way from a member to its bytes, or -1. */
  function FirstHardLink(tar: seq<Member>, k: nat, seen: set<nat>): (h: int)
    requires k < |tar|
    ensures -1 <= h < |tar| && (h != -1 ==> tar[h].file.HardLink?)
    decreases Indices(tar) - seen
  {
    if !tar[k].file.IsLink() || k in seen then -1
    else if tar[k].file.HardLink? then k
    else
      var t := LinkTarget(tar, k);
      if t == -1 then -1
      else
        assert k in Indices(tar) - seen && k !in Indices(tar) - (seen + {k});
        FirstHardLink(tar, t, seen + {k})
  }

  predicate ReadsLink(tar: seq<Member>, name: string) {
    var k := IndexOf(tar, name);
    k != -1 && tar[k].file.IsLink()
  }

  predicate ReadsHardLink(tar: seq<Member>, name: string) {
    var k := IndexOf(tar, name);
    k != -1 && FirstHardLink(tar, k, {}) != -1
  }

  lemma {:induction false} LastOfName(tar: seq<Member>, name: string, k: nat)
    requires k < |tar| && tar[k].name == DropSlashes(name)
    requires forall j | k < j < |tar| :: tar[j].name != DropSlashes(name)
    ensures IndexOf(tar, name) == k
  {
  }

  /**
   A member that is found and not a link is read for what it is. A link is not: the bytes are those of
   another member, and nobody has looked at its name.
   */
  lemma {:induction false} OwnBytesIff(tar: seq<Member>, name: string, data: Bytes)
    requires Fetch(tar, name).Found? && Fetch(tar, name).content == Data(data)
    ensures tar[IndexOf(tar, name)] == Member(DropSlashes(name), Regular(data)) <==> !ReadsLink(tar, name)
  {
  }

  // ---------------------------------------------------------------- the order of the members

  predicate DistinctNames(tar: seq<Member>) {
    forall i, j | 0 <= i < j < |tar| :: tar[i].name != tar[j].name
  }

  /** No two names lead to the same place. */
  predicate DistinctPaths(tar: seq<Member>) {
    forall i, j | 0 <= i < j < |tar| :: Normalize(tar[i].name) != Normalize(tar[j].name)
  }

  ghost predicate SameMembers(tar: seq<Member>, other: seq<Member>) {
    forall m :: m in tar <==> m in other
  }

  lemma {:induction false} OnceInMultiset(tar: seq<Member>, m: Member)
    requires DistinctNames(tar)
    ensures multiset(tar)[m] <= 1
    decreases tar
  {
    if tar != [] {
      var n := |tar| - 1;
      OnceInMultiset(tar[..n], m);
      assert tar == tar[..n] + [tar[n]];
      if m == tar[n] {
        assert m !in tar[..n];
      }
    }
  }

  lemma {:induction false} TwiceInMultiset(tar: seq<Member>, i: nat, j: nat)
    requires i < j < |tar| && tar[i] == tar[j]
    ensures multiset(tar)[tar[i]] >= 2
  {
    assert tar == tar[..j] + tar[j..];
    assert tar[i] in tar[..j] by { assert tar[..j][i] == tar[i]; }
    assert tar[j] in tar[j..] by { assert tar[j..][0] == tar[j]; }
  }

  lemma {:induction false} ShuffledMembers(tar: seq<Member>, other: seq<Member>)
    requires DistinctNames(tar) && multiset(tar) == multiset(other)
    ensures DistinctNames(other) && SameMembers(tar, other)
  {
    forall m ensures m in tar <==> m in other {
      assert m in multiset(tar) <==> m in multiset(other);
    }
    forall i, j | 0 <= i < j < |other| ensures other[i].name != other[j].name {
      assert other[i] in tar && other[j] in tar;
      if other[i] == other[j] {
        TwiceInMultiset(other, i, j);
        OnceInMultiset(tar, other[i]);
      }
    }
  }

  lemma {:induction false} PathsGiveNames(tar: seq<Member>)
    requires DistinctPaths(tar)
    ensures DistinctNames(tar)
  {
    forall i, j | 0 <= i < j < |tar| ensures tar[i].name != tar[j].name {
      assert Normalize(tar[i].name) != Normalize(tar[j].name);
    }
  }

  lemma {:induction false} ShuffledPaths(tar: seq<Member>, other: seq<Member>)
    requires DistinctPaths(tar) && multiset(tar) == multiset(other)
    ensures DistinctPaths(other) && DistinctNames(tar) && DistinctNames(other) && SameMembers(tar, other)
  {
    hide Normalize;
    PathsGiveNames(tar);
    ShuffledMembers(tar, other);
    forall i, j | 0 <= i < j < |other| ensures Normalize(other[i].name) != Normalize(other[j].name) {
      assert other[i] in tar && other[j] in tar;
      var a, b :| 0 <= a < |tar| && 0 <= b < |tar| && tar[a] == other[i] && tar[b] == other[j];
      assert a != b;
      assert a < b || b < a;
    }
  }

  lemma {:induction false} SameIndexOf(tar: seq<Member>, other: seq<Member>, name: string)
    requires DistinctNames(tar) && DistinctNames(other) && SameMembers(tar, other)
    ensures var i, j := IndexOf(tar, name), IndexOf(other, name);
            (i == -1 <==> j == -1) && (i != -1 ==> tar[i] == other[j])
  {
    hide DropSlashes;
    var i, j := IndexOf(tar, name), IndexOf(other, name);
    if i != -1 {
      assert tar[i] in other;
      var b :| 0 <= b < |other| && other[b] == tar[i];
      assert j >= b;
      assert other[j].name == other[b].name;
    }
    if j != -1 {
      assert other[j] in tar;
      var a :| 0 <= a < |tar| && tar[a] == other[j];
      assert i >= a;
    }
  }

  lemma {:induction false} SamePathIndex(tar: seq<Member>, other: seq<Member>, path: string)
    requires DistinctPaths(tar) && DistinctPaths(other) && SameMembers(tar, other)
    ensures var i, j := PathIndex(tar, path, |tar|), PathIndex(other, path, |other|);
            (i == -1 <==> j == -1) && (i != -1 ==> tar[i] == other[j])
  {
    hide Normalize;
    var i, j := PathIndex(tar, path, |tar|), PathIndex(other, path, |other|);
    if i != -1 {
      assert tar[i] in other;
      var b :| 0 <= b < |other| && other[b] == tar[i];
      assert j >= b;
      assert Normalize(other[j].name) == Normalize(other[b].name);
    }
    if j != -1 {
      assert other[j] in tar;
      var a :| 0 <= a < |tar| && tar[a] == other[j];
      assert i >= a;
    }
  }

  /** Members that are not links read the same wherever they stand. */
  lemma {:induction false} PlainFetchSame(tar: seq<Member>, other: seq<Member>, name: string)
    requires DistinctNames(tar) && DistinctNames(other) && SameMembers(tar, other) && !ReadsLink(tar, name)
    ensures Fetch(other, name) == Fetch(tar, name)
  {
    hide DropSlashes, LinkTarget;
    SameIndexOf(tar, other, name);
  }

  /** The links seen in one order are those seen in the other. */
  predicate Twins(tar: seq<Member>, other: seq<Member>, seen: set<nat>, theirs: set<nat>) {
    forall a: nat, b: nat | a < |tar| && b < |other| && tar[a] == other[b] :: a in seen <==> b in theirs
  }

  lemma {:induction false} TwinsGrow(
    tar: seq<Member>, other: seq<Member>, seen: set<nat>, theirs: set<nat>, i: nat, j: nat)
    requires DistinctNames(tar) && DistinctNames(other) && Twins(tar, other, seen, theirs)
    requires i < |tar| && j < |other| && tar[i] == other[j]
    ensures Twins(tar, other, seen + {i}, theirs + {j})
  {
    forall a: nat, b: nat | a < |tar| && b < |other| && tar[a] == other[b]
      ensures a in seen + {i} <==> b in theirs + {j}
    {
      assert a == i ==> other[b].name == other[j].name;
      assert b == j ==> tar[a].name == tar[i].name;
    }
  }

  lemma {:induction false} ExtractSame(
    tar: seq<Member>, other: seq<Member>, seen: set<nat>, theirs: set<nat>, i: nat, j: nat)
    requires DistinctPaths(tar) && DistinctPaths(other) && SameMembers(tar, other) && Twins(tar, other, seen, theirs)
    requires i < |tar| && j < |other| && tar[i] == other[j] && FirstHardLink(tar, i, seen) == -1
    ensures Extract(other, j, theirs) == Extract(tar, i, seen)
    decreases Indices(tar) - seen
  {
    hide Normalize, LinkPath;
    assert i in seen <==> j in theirs;
    if tar[i].file.SymLink? && i !in seen {
      SamePathIndex(tar, other, LinkPath(tar[i]));
      var t := LinkTarget(tar, i);
      if t != -1 {
        PathsGiveNames(tar);
        PathsGiveNames(other);
        TwinsGrow(tar, other, seen, theirs, i, j);
        assert i in Indices(tar) - seen && i !in Indices(tar) - (seen + {i});
        ExtractSame(tar, other, seen + {i}, theirs + {j}, t, LinkTarget(other, j));
      }
    }
  }

  /** Without a hard link on the way, reading does not depend on the order. */
  lemma {:induction false} FetchSame(tar: seq<Member>, other: seq<Member>, name: string)
    requires DistinctPaths(tar) && multiset(tar) == multiset(other) && !ReadsHardLink(tar, name)
    ensures Fetch(other, name) == Fetch(tar, name)
  {
    hide Normalize, Extract, FirstHardLink, DropSlashes;
    ShuffledPaths(tar, other);
    SameIndexOf(tar, other, name);
    if IndexOf(tar, name) != -1 {
      ExtractSame(tar, other, {}, {}, IndexOf(tar, name), IndexOf(other, name));
    }
  }

  /** The archive with one member moved to the front. */
  function Front(tar: seq<Member>, h: nat): seq<Member>
    requires h < |tar|
  {
    [tar[h]] + tar[..h] + tar[h + 1..]
  }

  lemma {:induction false} FrontShuffles(tar: seq<Member>, h: nat)
    requires h < |tar|
    ensures multiset(Front(tar, h)) == multiset(tar) && Front(tar, h)[0] == tar[h]
  {
    assert tar == tar[..h] + [tar[h]] + tar[h + 1..];
  }

  lemma {:induction false} HardLinkFails(
    tar: seq<Member>, other: seq<Member>, seen: set<nat>, theirs: set<nat>, i: nat, j: nat)
    requires DistinctPaths(tar) && DistinctPaths(other) && SameMembers(tar, other) && Twins(tar, other, seen, theirs)
    requires i < |tar| && j < |other| && tar[i] == other[j]
    requires var h := FirstHardLink(tar, i, seen); h != -1 && other[0] == tar[h]
    ensures Extract(other, j, theirs) == LinkMissing
    decreases Indices(tar) - seen
  {
    hide Normalize, LinkPath;
    assert i in seen <==> j in theirs;
    PathsGiveNames(tar);
    PathsGiveNames(other);
    if tar[i].file.HardLink? {
      assert other[0].name == other[j].name;
      assert j == 0;
    } else {
      SamePathIndex(tar, other, LinkPath(tar[i]));
      var t := LinkTarget(tar, i);
      TwinsGrow(tar, other, seen, theirs, i, j);
      assert i in Indices(tar) - seen && i !in Indices(tar) - (seen + {i});
      HardLinkFails(tar, other, seen + {i}, theirs + {j}, t, LinkTarget(other, j));
    }
  }

  /** A hard link that stands before its target cannot be read. */
  lemma {:induction false} FrontFetchFails(tar: seq<Member>, name: string)
    requires DistinctPaths(tar) && ReadsHardLink(tar, name)
    ensures var h := FirstHardLink(tar, IndexOf(tar, name), {});
            Fetch(Front(tar, h), name) == Found(DropSlashes(name), LinkMissing)
  {
    hide Normalize, Extract, FirstHardLink, DropSlashes;
    var i := IndexOf(tar, name);
    var h := FirstHardLink(tar, i, {});
    var other := Front(tar, h);
    FrontShuffles(tar, h);
    ShuffledPaths(tar, other);
    SameIndexOf(tar, other, name);
    HardLinkFails(tar, other, {}, {}, i, IndexOf(other, name));
  }

  // ---------------------------------------------------------------- a link out of its directory

  lemma {:induction false} NormalizeBy(path: string, parts: seq<string>, kept: seq<string>)
    requires path != "" && path[0] != '/' && Split('/', path) == parts
    requires AddParts([], parts, false) == kept && Join(kept) != ""
    ensures Normalize(path) == Join(kept)
  {
    hide Split, AddParts, Join;
    assert Root(path) == "";
    assert "" + Join(kept) == Join(kept);
  }

  lemma {:induction false} NormalOutside()
    ensures Normalize("../x") == "../x"
  {
    assert "../x" == ".." + "/" + "x";
    SplitFirst("..", "x");
    SplitLast("x");
    UpAndOut();
    hide Split, AddParts, Join;
    NormalizeBy("../x", ["..", "x"], ["..", "x"]);
  }

  lemma {:induction false} SplitUp()
    ensures Split('/', "../../x") == ["..", "..", "x"]
  {
    hide Split;
    assert "../x" == ".." + "/" + "x";
    SplitFirst("..", "x");
    SplitLast("x");
    assert "../../x" == ".." + "/" + "../x";
    SplitFirst("..", "../x");
  }

  lemma {:induction false} SplitUpAndOut()
    ensures Split('/', "items/../../x") == ["items", "..", "..", "x"]
  {
    hide Split;
    SplitUp();
    assert "items/../../x" == "items" + "/" + "../../x";
    SplitFirst("items", "../../x");
  }

  lemma {:induction false} NormalUpAndOut()
    ensures Normalize("items/../../x") == "../x"
  {
    hide Split, AddParts, Join;
    SplitUpAndOut();
    UpAndOut();
    NormalizeBy("items/../../x", ["items", "..", "..", "x"], ["..", "x"]);
  }

  lemma {:induction false} NormalInside()
    ensures Normalize("items/b") == "items/b"
  {
    assert "items/b" == "items" + "/" + "b";
    SplitFirst("items", "b");
    SplitLast("b");
    TwoParts();
    hide Split, AddParts, Join;
    NormalizeBy("items/b", ["items", "b"], ["items", "b"]);
  }

  /** A member under a safe name whose bytes are those of `../x`. */
  lemma {:induction false} SymLinkReadsElsewhere(data: Bytes)
    ensures var tar := [Member("../x", Regular(data)), Member("items/b", SymLink("../../x"))];
            Fetch(tar, "items/b") == Found("items/b", Data(data))
  {
    var tar := [Member("../x", Regular(data)), Member("items/b", SymLink("../../x"))];
    ItemsDirectory();
    NormalOutside();
    NormalUpAndOut();
    NormalInside();
    hide Normalize, DirName, DropSlashes;
    assert "items" + "/" + "../../x" == "items/../../x";
    assert LinkPath(tar[1]) == "items/../../x";
    LastOfName(tar, "items/b", 1);
    LinkFound(tar);
    assert Extract(tar, 0, {1}) == Data(data);
    assert Extract(tar, 1, {}) == Extract(tar, 0, {1});
  }

  lemma {:induction false} LinkFound(tar: seq<Member>)
    requires |tar| == 2 && tar[1].file.SymLink?
    requires Normalize(tar[0].name) == Normalize(LinkPath(tar[1])) != Normalize(tar[1].name)
    ensures LinkTarget(tar, 1) == 0
  {
    hide Normalize, LinkPath;
  }

  lemma {:induction false} ItemsDirectory()
    ensures DirName("items/b") == "items" && DropSlashes("items/b") == "items/b"
  {
    assert "items/b"[..6] == "items/";
    assert UpToLastSlash("items/b") == UpToLastSlash("items/") == "items/";
    assert "items/"[..5] == "items";
    assert DropSlashes("items/") == DropSlashes("items") == "items";
  }

  lemma {:induction false} UpAndOut()
    ensures AddParts([], ["items", "..", "..", "x"], false) == ["..", "x"]
    ensures AddParts([], ["..", "x"], false) == ["..", "x"]
    ensures Join(["..", "x"]) == "../x"
  {
    assert ["items", "..", "..", "x"][1..] == ["..", "..", "x"];
    assert ["..", "..", "x"][1..] == ["..", "x"];
    assert ["..", "x"][1..] == ["x"];
    assert ["x"][1..] == [];
    assert AddPart([], "items", false) == ["items"];
    assert AddPart(["items"], "..", false) == [];
    assert AddPart([], "..", false) == [".."];
    assert AddPart([".."], "x", false) == ["..", "x"];
    assert AddParts([".."], ["x"], false) == ["..", "x"];
    assert AddParts([], ["..", "x"], false) == ["..", "x"];
    assert AddParts(["items"], ["..", "..", "x"], false) == ["..", "x"];
  }

  lemma {:induction false} TwoParts()
    ensures AddParts([], ["items", "b"], false) == ["items", "b"] && Join(["items", "b"]) == "items/b"
  {
    assert ["items", "b"][1..] == ["b"] && ["b"][1..] == [];
    assert AddPart([], "items", false) == ["items"] && AddPart(["items"], "b", false) == ["items", "b"];
    assert AddParts(["items"], ["b"], false) == ["items", "b"];
  }
}
