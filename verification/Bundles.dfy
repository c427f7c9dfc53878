/** Evidence bundles: the collector's builder and the ingestion service's parser. */
module Bundles {
  import opened Wrappers
  import opened Strings
  import opened Uuids
  import opened Paths
  import opened Archives

  type Time = int

  // ---------------------------------------------------------------- data

  /** One tool's raw output, as the collector holds it; `collectedAt` is its text in the manifest. */
  datatype Item = Item(
    id: Uuid, tool: string, version: string, category: string, collectedAt: string, file: string, raw: Bytes)

  datatype Manifest = Manifest(
    schemaVersion: string, collectorVersion: string, collectedAt: string, scope: map<string, string>, items: seq<Item>)

  /** A manifest item as decoded JSON: an expected key that is missing is None. */
  datatype RawItem = RawItem(
    id: Option<string>, tool: Option<string>, version: Option<string>, category: Option<string>,
    collectedAt: Option<string>, file: Option<string>)
  {
    predicate Complete() {
      id.Some? && tool.Some? && version.Some? && category.Some? && collectedAt.Some? && file.Some?
    }
  }

  datatype Doc = Doc(
    schemaVersion: Option<string>, collectorVersion: Option<string>, collectedAt: Option<string>,
    scope: Option<map<string, string>>, items: Option<seq<RawItem>>)
  {
    predicate Complete() {
      schemaVersion.Some? && collectorVersion.Some? && collectedAt.Some? && scope.Some? && items.Some?
    }
  }

  /** The encoders and decoders of the libraries. */
  datatype Codec = Codec(
    marshal: Manifest -> Bytes, unmarshal: Bytes -> Option<Doc>,
    otherUuid: string -> Option<Uuid>, time: string -> Option<Time>)

  const MANIFEST := "manifest.json"
  const SCHEMA_VERSION := "1"
  const COLLECTOR_VERSION := "0.1.0"

  // ---------------------------------------------------------------- the builder

  function FileOf(id: Uuid): string {
    "items/" + Canonical(id) + ".raw"
  }

  function MembersOf(items: seq<Item>): (members: seq<Member>)
    ensures |members| == |items|
    ensures forall i | 0 <= i < |items| :: members[i] == Member(items[i].file, Regular(items[i].raw))
  {
    if items == [] then []
    else
      var last := items[|items| - 1];
      MembersOf(items[..|items| - 1]) + [Member(last.file, Regular(last.raw))]
  }

  function TarOf(c: Codec, man: Manifest): seq<Member> {
    [Member(MANIFEST, Regular(c.marshal(man)))] + MembersOf(man.items)
  }

  method Build(c: Codec, scope: map<string, string>, items: array<Item>, newIds: seq<Uuid>, now: string)
    returns (tar: seq<Member>)
    requires |newIds| == items.Length
    modifies items
    ensures forall i | 0 <= i < items.Length ::
              items[i].id == if old(items[i].id) == NIL then newIds[i] else old(items[i].id)
    ensures forall i | 0 <= i < items.Length :: items[i].file == "items/" + Canonical(items[i].id) + ".raw"
    ensures forall i | 0 <= i < items.Length ::
              && items[i].tool == old(items[i].tool) && items[i].version == old(items[i].version)
              && items[i].category == old(items[i].category) && items[i].collectedAt == old(items[i].collectedAt)
              && items[i].raw == old(items[i].raw)
    ensures |tar| == items.Length + 1
    ensures tar[0] == Member("manifest.json", Regular(c.marshal(Manifest("1", "0.1.0", now, scope, items[..]))))
    ensures forall i | 0 <= i < items.Length :: tar[i + 1] == Member(items[i].file, Regular(items[i].raw))
    ensures tar == TarOf(c, Manifest(SCHEMA_VERSION, COLLECTOR_VERSION, now, scope, items[..]))
  {
    hide IsUuid, MembersOf, Canonical;
    for i := 0 to items.Length
      invariant forall k | 0 <= k < i ::
                  var id := if old(items[k].id) == NIL then newIds[k] else old(items[k].id);
                  items[k] == old(items[k]).(id := id, file := FileOf(id))
      invariant forall k | i <= k < items.Length :: items[k] == old(items[k])
    {
      if items[i].id == NIL {
        items[i] := items[i].(id := newIds[i]);
      }
      items[i] := items[i].(file := FileOf(items[i].id));
    }
    var man := Manifest(SCHEMA_VERSION, COLLECTOR_VERSION, now, scope, items[..]);
    var members := WriteMembers(items[..]);
    tar := [Member(MANIFEST, Regular(c.marshal(man)))] + members;
  }

  /** The second loop of `Build`: one member for each item. */
  method WriteMembers(items: seq<Item>) returns (members: seq<Member>)
    ensures members == MembersOf(items)
  {
    members := [];
    for i := 0 to |items|
      invariant members == MembersOf(items[..i])
    {
      assert items[..i + 1][..i] == items[..i];
      members := members + [Member(items[i].file, Regular(items[i].raw))];
    }
    assert items[..|items|] == items;
  }

  // ---------------------------------------------------------------- the parser

  datatype BundleItem = BundleItem(
    id: Uuid, tool: string, version: string, category: string, collectedAt: Time, file: string, raw: Bytes)

  datatype Bundle = Bundle(
    schemaVersion: string, collectorVersion: string, collectedAt: Time, scope: map<string, string>,
    items: seq<BundleItem>)

  /**
   All but the last two are BundleErrors: BadLink is the KeyError or RecursionError of a link that cannot
   be followed, BadValue the ValueError of `UUID()` or `fromisoformat`.
   */
  datatype Error =
    | NoManifest | ManifestNotRegular | ManifestNotJson
    | ManifestKeysMissing
    | ItemKeysMissing
    | MissingFile(name: string) | UnsafePath(name: string) | NotRegular(name: string)
    | BadLink
    | BadValue

  datatype Result<+T> = Ok(value: T) | Err(error: Error)

  /** Absolute, or with a part that leads up. */
  predicate IsUnsafe(name: string) {
    (name != "" && name[0] == '/') || ".." in Split('/', name)
  }

  /** The bytes of a member that was opened, or what opening it raises. */
  function Opened(content: Extracted, notRegular: Error): Result<Bytes> {
    match content
    case Data(data) => Ok(data)
    case NoFile => Err(notRegular)
    case LinkMissing => Err(BadLink)
    case LinkLoop => Err(BadLink)
  }

  /** One manifest item with what the archive holds under its file, the checks in the parser's order. */
  function ReadFetched(c: Codec, raw: RawItem, f: Fetched): Result<BundleItem>
    requires raw.Complete()
  {
    if f.Absent? then Err(MissingFile(raw.file.value))
    else if IsUnsafe(f.name) then Err(UnsafePath(f.name))
    else
      match Opened(f.content, NotRegular(f.name))
      case Err(e) => Err(e)
      case Ok(data) =>
        var id := ReadUuid(c.otherUuid, raw.id.value);
        var at := c.time(raw.collectedAt.value);
        if id.None? || at.None? then Err(BadValue)
        else Ok(BundleItem(id.value, raw.tool.value, raw.version.value, raw.category.value,
                           at.value, raw.file.value, data))
  }

  function ReadItem(c: Codec, tar: seq<Member>, raw: RawItem): Result<BundleItem> {
    if raw.Complete() then ReadFetched(c, raw, Fetch(tar, raw.file.value)) else Err(ItemKeysMissing)
  }

  /** All items in order, or the first error. */
  function ReadItems(c: Codec, tar: seq<Member>, raws: seq<RawItem>): Result<seq<BundleItem>> {
    if raws == [] then Ok([])
    else
      match ReadItems(c, tar, raws[..|raws| - 1])
      case Err(e) => Err(e)
      case Ok(items) =>
        match ReadItem(c, tar, raws[|raws| - 1])
        case Err(e) => Err(e)
        case Ok(item) => Ok(items + [item])
  }

  /** The manifest of an archive, decoded and with all its keys. */
  function ReadManifest(c: Codec, f: Fetched): (r: Result<Doc>)
    ensures r.Ok? ==> r.value.Complete()
  {
    if f.Absent? then Err(NoManifest)
    else
      match Opened(f.content, ManifestNotRegular)
      case Err(e) => Err(e)
      case Ok(data) =>
        var doc := c.unmarshal(data);
        if doc.None? then Err(ManifestNotJson)
        else if !doc.value.Complete() then Err(ManifestKeysMissing)
        else Ok(doc.value)
  }

  function ReadBundle(c: Codec, tar: seq<Member>): Result<Bundle> {
    match ReadManifest(c, Fetch(tar, MANIFEST))
    case Err(e) => Err(e)
    case Ok(doc) =>
      match ReadItems(c, tar, doc.items.value)
      case Err(e) => Err(e)
      case Ok(items) =>
        var at := c.time(doc.collectedAt.value);
        if at.None? then Err(BadValue)
        else Ok(Bundle(doc.schemaVersion.value, doc.collectorVersion.value, at.value, doc.scope.value, items))
  }

  lemma {:induction false} ErrorStays(c: Codec, tar: seq<Member>, raws: seq<RawItem>, n: nat)
    requires n <= |raws| && ReadItems(c, tar, raws[..n]).Err?
    ensures ReadItems(c, tar, raws) == ReadItems(c, tar, raws[..n])
    decreases raws
  {
    if n == |raws| {
      assert raws[..n] == raws;
    } else {
      assert raws[..|raws| - 1][..n] == raws[..n];
      ErrorStays(c, tar, raws[..|raws| - 1], n);
    }
  }

  /** Parsing fails exactly when an item fails, with the error of the first one that does. */
  lemma {:induction false} FirstErrorWins(c: Codec, tar: seq<Member>, raws: seq<RawItem>, e: Error)
    ensures ReadItems(c, tar, raws) == Err(e)
       <==> exists n :: 0 <= n < |raws| && FailsAt(c, tar, raws, n, e)
    decreases raws
  {
    hide ReadItem;
    if raws != [] {
      var last := |raws| - 1;
      var init := raws[..last];
      FirstErrorWins(c, tar, init, e);
      if ReadItems(c, tar, init).Ok? {
        AllRead(c, tar, init);
        assert ReadItems(c, tar, raws) == Err(e) ==> FailsAt(c, tar, raws, last, e);
      } else if ReadItems(c, tar, init) == Err(e) {
        var n :| 0 <= n < |init| && FailsAt(c, tar, init, n, e);
        assert FailsAt(c, tar, raws, n, e);
      }
      forall n | 0 <= n < |raws| && FailsAt(c, tar, raws, n, e) ensures ReadItems(c, tar, raws) == Err(e) {
        FailureDecides(c, tar, raws, n, e);
      }
    }
  }

  predicate FailsAt(c: Codec, tar: seq<Member>, raws: seq<RawItem>, n: nat, e: Error)
    requires n < |raws|
  {
    ReadItem(c, tar, raws[n]) == Err(e) && forall i | 0 <= i < n :: ReadItem(c, tar, raws[i]).Ok?
  }

  lemma {:induction false} AllRead(c: Codec, tar: seq<Member>, raws: seq<RawItem>)
    ensures ReadItems(c, tar, raws).Ok? <==> forall i | 0 <= i < |raws| :: ReadItem(c, tar, raws[i]).Ok?
    decreases raws
  {
    hide ReadItem;
    if raws != [] {
      AllRead(c, tar, raws[..|raws| - 1]);
    }
  }

  lemma {:induction false} FailureDecides(c: Codec, tar: seq<Member>, raws: seq<RawItem>, n: nat, e: Error)
    requires n < |raws| && FailsAt(c, tar, raws, n, e)
    ensures ReadItems(c, tar, raws) == Err(e)
  {
    hide ReadItem;
    AllRead(c, tar, raws[..n]);
    assert raws[..n + 1][..n] == raws[..n];
    assert ReadItems(c, tar, raws[..n + 1]) == Err(e);
    ErrorStays(c, tar, raws, n + 1);
  }

  /**
   What is parsed: the archive has a last member of that name, and the name is safe. Its bytes are that
   member's own exactly when the member is not a link.
   */
  lemma {:induction false} ParsedItemIsSafe(c: Codec, tar: seq<Member>, raw: RawItem)
    requires ReadItem(c, tar, raw).Ok?
    ensures var item := ReadItem(c, tar, raw).value;
            var k := IndexOf(tar, item.file);
            && k != -1 && !IsUnsafe(tar[k].name) && tar[k].name == DropSlashes(item.file)
            && Extract(tar, k, {}) == Data(item.raw)
            && (tar[k] == Member(DropSlashes(item.file), Regular(item.raw)) <==> !ReadsLink(tar, item.file))
  {
    hide IsUnsafe, ReadUuid, Extract;
    var item := ReadItem(c, tar, raw).value;
    OwnBytesIff(tar, item.file, item.raw);
  }

  /** A safe name does not make the bytes safe: a symbolic link can lead out of the directory. */
  lemma {:induction false} SafeNameUnsafeBytes(data: Bytes)
    ensures var tar := [Member("../x", Regular(data)), Member("items/b", SymLink("../../x"))];
            && Fetch(tar, "items/b") == Found("items/b", Data(data))
            && !IsUnsafe("items/b") && IsUnsafe("../x")
  {
    hide Fetch, IsUnsafe;
    SymLinkReadsElsewhere(data);
    InsideIsSafe();
    OutsideIsUnsafe();
  }

  lemma {:induction false} InsideIsSafe()
    ensures !IsUnsafe("items/b")
  {
    assert "items/b" == "items" + "/" + "b";
    SplitFirst("items", "b");
    SplitLast("b");
    hide Split;
    assert Split('/', "items/b") == ["items", "b"];
  }

  lemma {:induction false} OutsideIsUnsafe()
    ensures IsUnsafe("../x")
  {
    assert "../x" == ".." + "/" + "x";
    SplitFirst("..", "x");
    hide Split;
    assert Split('/', "../x")[0] == "..";
  }

  /** The part stands in the name between slashes or the ends. */
  predicate IsPartAt(name: string, part: string, i: nat) {
    && i + |part| <= |name| && name[i..i + |part|] == part
    && (i == 0 || name[i - 1] == '/') && (i + |part| == |name| || name[i + |part|] == '/')
  }

  lemma {:induction false} PartAfter(name: string, part: string, k: nat, i: nat)
    requires k < |name| && name[k] == '/' && k < i <= |name|
    ensures IsPartAt(name, part, i) <==> IsPartAt(name[k + 1..], part, i - k - 1)
  {
    if i + |part| <= |name| {
      assert name[k + 1..][i - k - 1..i - k - 1 + |part|] == name[i..i + |part|];
    }
  }

  lemma {:induction false} PartsAre(name: string, part: string)
    requires '/' !in part
    ensures part in Split('/', name) <==> exists i: nat | i <= |name| :: IsPartAt(name, part, i)
    decreases |name|
  {
    var k := Find('/', name);
    FirstPart(name, part);
    if k == |name| {
      forall i: nat | 0 < i ensures !IsPartAt(name, part, i) {
        if i <= |name| { assert name[i - 1] == name[..k][i - 1] && name[i - 1] in name[..k]; }
      }
      assert name[..k] == name;
      hide IsPartAt;
      assert Split('/', name) == [name];
      if i: nat :| i <= |name| && IsPartAt(name, part, i) {
        assert i == 0;
      }
    } else {
      var rest := name[k + 1..];
      PartsAre(rest, part);
      assert Split('/', name) == [name[..k]] + Split('/', rest);
      hide Split;
      forall i: nat | k < i <= |name| ensures IsPartAt(name, part, i) <==> IsPartAt(rest, part, i - k - 1) {
        PartAfter(name, part, k, i);
      }
      forall i: nat | 0 < i <= k ensures !IsPartAt(name, part, i) {
        assert name[i - 1] in name[..k];
      }
      if i: nat :| i <= |rest| && IsPartAt(rest, part, i) {
        assert IsPartAt(name, part, i + k + 1);
      }
      if i: nat :| i <= |name| && IsPartAt(name, part, i) {
        assert i > 0 ==> IsPartAt(rest, part, i - k - 1);
      }
    }
  }

  lemma {:induction false} FirstPart(name: string, part: string)
    requires '/' !in part
    ensures IsPartAt(name, part, 0) <==> name[..Find('/', name)] == part
  {
    var k := Find('/', name);
    assert forall j | 0 <= j < k :: name[j] == name[..k][j] && name[j] in name[..k];
    if IsPartAt(name, part, 0) {
      assert forall j | 0 <= j < |part| :: name[j] == part[j] && name[j] in part;
    }
  }

  /** Unsafe names, character by character. */
  lemma {:induction false} UnsafeIff(name: string)
    ensures IsUnsafe(name) <==> (name != "" && name[0] == '/') || exists i: nat | i <= |name| :: IsPartAt(name, "..", i)
  {
    hide Split, IsPartAt;
    PartsAre(name, "..");
  }

  lemma {:induction false} PartsOnlyAdd(kept: seq<string>, parts: seq<string>, rooted: bool)
    requires ".." !in parts
    ensures kept <= AddParts(kept, parts, rooted)
    decreases parts
  {
    if parts != [] {
      assert ".." !in parts[1..];
      PartsOnlyAdd(AddPart(kept, parts[0], rooted), parts[1..], rooted);
      assert kept <= AddPart(kept, parts[0], rooted);
    }
  }

  /** Under whatever directory a safe name is put, the place it leads to stays below that directory. */
  lemma {:induction false} SafeStaysInside(directory: seq<string>, name: string, rooted: bool)
    requires !IsUnsafe(name)
    ensures directory <= AddParts(directory, Split('/', name), rooted)
  {
    PartsOnlyAdd(directory, Split('/', name), rooted);
  }

  // ---------------------------------------------------------------- which error

  predicate IsHeld(tar: seq<Member>, name: string) {
    exists k | 0 <= k < |tar| :: tar[k].name == DropSlashes(name)
  }

  lemma {:induction false} FetchedIff(tar: seq<Member>, name: string)
    ensures Fetch(tar, name).Found? <==> IsHeld(tar, name)
    ensures Fetch(tar, name).Found? ==> Fetch(tar, name).name == DropSlashes(name)
  {
    hide DropSlashes, Extract;
  }

  /** What becomes of an item, check by check in the parser's order. */
  lemma {:induction false} ItemChecks(c: Codec, tar: seq<Member>, raw: RawItem)
    requires raw.Complete()
    ensures var file := raw.file.value;
            var name := DropSlashes(file);
            var r := ReadItem(c, tar, raw);
            if !IsHeld(tar, file) then r == Err(MissingFile(file))
            else if (name != "" && name[0] == '/') || exists i: nat | i <= |name| :: IsPartAt(name, "..", i)
            then r == Err(UnsafePath(name))
            else
              match Fetch(tar, file).content
              case NoFile => r == Err(NotRegular(name))
              case LinkMissing => r == Err(BadLink)
              case LinkLoop => r == Err(BadLink)
              case Data(data) =>
                var id, at := ReadUuid(c.otherUuid, raw.id.value), c.time(raw.collectedAt.value);
                if id.None? || at.None? then r == Err(BadValue)
                else
                  && r.Ok? && r.value.id == id.value && r.value.collectedAt == at.value && r.value.raw == data
                  && r.value.file == file && r.value.tool == raw.tool.value && r.value.version == raw.version.value
                  && r.value.category == raw.category.value
  {
    FetchedIff(tar, raw.file.value);
    UnsafeIff(DropSlashes(raw.file.value));
    hide Fetch, IsUnsafe, IsHeld, IsPartAt, ReadUuid, DropSlashes;
  }

  /** What becomes of an archive before its items are looked at, and of items that all can be read. */
  lemma {:induction false} BundleChecks(c: Codec, tar: seq<Member>)
    ensures var r := ReadBundle(c, tar);
            if forall k | 0 <= k < |tar| :: tar[k].name != "manifest.json" then r == Err(NoManifest)
            else
              match Fetch(tar, "manifest.json").content
              case NoFile => r == Err(ManifestNotRegular)
              case LinkMissing => r == Err(BadLink)
              case LinkLoop => r == Err(BadLink)
              case Data(data) =>
                var doc := c.unmarshal(data);
                if doc.None? then r == Err(ManifestNotJson)
                else if !doc.value.Complete() then r == Err(ManifestKeysMissing)
                else if exists i | 0 <= i < |doc.value.items.value| :: ReadItem(c, tar, doc.value.items.value[i]).Err?
                then r.Err? && exists n :: 0 <= n < |doc.value.items.value| && FailsAt(c, tar, doc.value.items.value, n, r.error)
                else if c.time(doc.value.collectedAt.value).None? then r == Err(BadValue)
                else r.Ok?
  {
    assert DropSlashes("manifest.json") == "manifest.json";
    FetchedIff(tar, "manifest.json");
    var man := ReadManifest(c, Fetch(tar, MANIFEST));
    hide Fetch, DropSlashes, ReadItem, FailsAt;
    if man.Ok? {
      AllRead(c, tar, man.value.items.value);
      var items := ReadItems(c, tar, man.value.items.value);
      if items.Err? { FirstErrorWins(c, tar, man.value.items.value, items.error); }
    }
  }

  // ---------------------------------------------------------------- the methods

  method ParseBundle(c: Codec, tar: seq<Member>) returns (r: Result<Bundle>)
    ensures r == ReadBundle(c, tar)
  {
    hide Fetch, ReadItems;
    var manifest := Fetch(tar, MANIFEST);
    if manifest.Absent? {
      return Err(NoManifest);
    }
    var data := Opened(manifest.content, ManifestNotRegular);
    if data.Err? {
      return Err(data.error);
    }
    var doc := c.unmarshal(data.value);
    if doc.None? {
      return Err(ManifestNotJson);
    }
    if !doc.value.Complete() {
      return Err(ManifestKeysMissing);
    }
    var parsed := ParseItems(c, tar, doc.value.items.value);
    if parsed.Err? {
      return Err(parsed.error);
    }
    var at := c.time(doc.value.collectedAt.value);
    if at.None? {
      return Err(BadValue);
    }
    r := Ok(Bundle(doc.value.schemaVersion.value, doc.value.collectorVersion.value, at.value,
                   doc.value.scope.value, parsed.value));
  }

  /** The loop over the manifest's items. */
  method ParseItems(c: Codec, tar: seq<Member>, raws: seq<RawItem>) returns (r: Result<seq<BundleItem>>)
    ensures r == ReadItems(c, tar, raws)
  {
    hide Fetch, ReadUuid, IsUnsafe;
    var items: seq<BundleItem> := [];
    var i := 0;
    while i < |raws|
      invariant 0 <= i <= |raws|
      invariant ReadItems(c, tar, raws[..i]) == Ok(items)
    {
      var raw := raws[i];
      assert raws[..i + 1][..i] == raws[..i];
      if ReadItem(c, tar, raw).Err? {
        ErrorStays(c, tar, raws, i + 1);
      }
      if !raw.Complete() {
        return Err(ItemKeysMissing);
      }
      var member := Fetch(tar, raw.file.value);
      if member.Absent? {
        return Err(MissingFile(raw.file.value));
      }
      if IsUnsafe(member.name) {
        return Err(UnsafePath(member.name));
      }
      var data := Opened(member.content, NotRegular(member.name));
      if data.Err? {
        return Err(data.error);
      }
      var id := ReadUuid(c.otherUuid, raw.id.value);
      var at := c.time(raw.collectedAt.value);
      if id.None? || at.None? {
        return Err(BadValue);
      }
      items := items + [BundleItem(id.value, raw.tool.value, raw.version.value, raw.category.value,
                                   at.value, raw.file.value, data.value)];
      i := i + 1;
    }
    assert raws[..i] == raws;
    r := Ok(items);
  }

  // ---------------------------------------------------------------- member order

  predicate SameFetches(tar: seq<Member>, other: seq<Member>, raws: seq<RawItem>) {
    forall i | 0 <= i < |raws| && raws[i].file.Some? ::
      Fetch(other, raws[i].file.value) == Fetch(tar, raws[i].file.value)
  }

  lemma {:induction false} SameItemsRead(c: Codec, tar: seq<Member>, other: seq<Member>, raws: seq<RawItem>)
    requires SameFetches(tar, other, raws)
    ensures ReadItems(c, other, raws) == ReadItems(c, tar, raws)
    decreases raws
  {
    hide Fetch, ReadFetched;
    if raws != [] {
      SameItemsRead(c, tar, other, raws[..|raws| - 1]);
    }
  }

  /** The files that parsing an archive opens: the manifest and then what it lists. */
  function Listed(c: Codec, tar: seq<Member>): seq<RawItem> {
    var man := ReadManifest(c, Fetch(tar, MANIFEST));
    if man.Ok? then man.value.items.value else []
  }

  lemma {:induction false} SameBundleRead(c: Codec, tar: seq<Member>, other: seq<Member>)
    requires Fetch(other, MANIFEST) == Fetch(tar, MANIFEST) && SameFetches(tar, other, Listed(c, tar))
    ensures ReadBundle(c, other) == ReadBundle(c, tar)
  {
    hide Fetch, ReadItems;
    SameItemsRead(c, tar, other, Listed(c, tar));
  }

  predicate ReadsNoLink(c: Codec, tar: seq<Member>) {
    && !ReadsLink(tar, MANIFEST)
    && var raws := Listed(c, tar);
       forall i | 0 <= i < |raws| && raws[i].file.Some? :: !ReadsLink(tar, raws[i].file.value)
  }

  /** If the names are distinct and no link is opened, any order gives the same bundle or the same error. */
  lemma {:induction false} MemberOrderIsIrrelevant(c: Codec, tar: seq<Member>, other: seq<Member>)
    requires DistinctNames(tar) && multiset(tar) == multiset(other) && ReadsNoLink(c, tar)
    ensures ReadBundle(c, other) == ReadBundle(c, tar)
  {
    ShuffledMembers(tar, other);
    PlainFetchSame(tar, other, MANIFEST);
    var raws := Listed(c, tar);
    forall i | 0 <= i < |raws| && raws[i].file.Some?
      ensures Fetch(other, raws[i].file.value) == Fetch(tar, raws[i].file.value)
    {
      PlainFetchSame(tar, other, raws[i].file.value);
    }
    SameBundleRead(c, tar, other);
  }

  /** Some file is opened through a hard link. */
  predicate OpensHardLink(c: Codec, tar: seq<Member>) {
    || ReadsHardLink(tar, MANIFEST)
    || var raws := Listed(c, tar);
       exists i | 0 <= i < |raws| :: raws[i].file.Some? && ReadsHardLink(tar, raws[i].file.value)
  }

  lemma {:induction false} OrderIrrelevantIf(c: Codec, tar: seq<Member>, other: seq<Member>)
    requires DistinctPaths(tar) && multiset(tar) == multiset(other) && !OpensHardLink(c, tar)
    ensures ReadBundle(c, other) == ReadBundle(c, tar)
  {
    hide Fetch, ReadsHardLink, DistinctPaths, ReadBundle;
    FetchSame(tar, other, MANIFEST);
    var raws := Listed(c, tar);
    forall i | 0 <= i < |raws| && raws[i].file.Some?
      ensures Fetch(other, raws[i].file.value) == Fetch(tar, raws[i].file.value)
    {
      FetchSame(tar, other, raws[i].file.value);
    }
    SameBundleRead(c, tar, other);
  }

  lemma {:induction false} AbsentItemFails(c: Codec, tar: seq<Member>, raws: seq<RawItem>, i: nat)
    requires i < |raws| && raws[i].file.Some?
    requires Fetch(tar, raws[i].file.value).Found? && Fetch(tar, raws[i].file.value).content == LinkMissing
    ensures ReadItems(c, tar, raws).Err?
  {
    hide Fetch, IsUnsafe;
    assert ReadItem(c, tar, raws[i]).Err?;
    AllRead(c, tar, raws);
  }

  /** Moving a hard link that is opened to the front breaks the archive. */
  lemma {:induction false} HardLinkOrderMatters(c: Codec, tar: seq<Member>) returns (other: seq<Member>)
    requires DistinctPaths(tar) && OpensHardLink(c, tar)
    ensures multiset(other) == multiset(tar) && ReadBundle(c, other).Err?
  {
    hide Fetch, ReadsHardLink, FirstHardLink, DistinctPaths, ReadItems, Front;
    if ReadsHardLink(tar, MANIFEST) {
      other := MovedLink(tar, MANIFEST);
    } else {
      var raws := Listed(c, tar);
      var i :| 0 <= i < |raws| && raws[i].file.Some? && ReadsHardLink(tar, raws[i].file.value);
      other := MovedLink(tar, raws[i].file.value);
      FetchSame(tar, other, MANIFEST);
      AbsentItemFails(c, other, raws, i);
    }
  }

  lemma {:induction false} MovedLink(tar: seq<Member>, name: string) returns (other: seq<Member>)
    requires DistinctPaths(tar) && ReadsHardLink(tar, name)
    ensures multiset(other) == multiset(tar)
    ensures Fetch(other, name) == Found(DropSlashes(name), LinkMissing)
  {
    hide Fetch, FirstHardLink, DistinctPaths;
    var h := FirstHardLink(tar, IndexOf(tar, name), {});
    other := Front(tar, h);
    FrontShuffles(tar, h);
    FrontFetchFails(tar, name);
  }

  /**
   Exactly when the order of the members matters to an archive that can be parsed and whose names lead to
   distinct places: when a file is opened through a hard link.
   */
  lemma {:induction false} OrderIrrelevantIff(c: Codec, tar: seq<Member>)
    requires DistinctPaths(tar) && ReadBundle(c, tar).Ok?
    ensures (forall other | multiset(other) == multiset(tar) :: ReadBundle(c, other) == ReadBundle(c, tar))
       <==> !OpensHardLink(c, tar)
  {
    hide ReadBundle, OpensHardLink, DistinctPaths;
    if OpensHardLink(c, tar) {
      var other := HardLinkOrderMatters(c, tar);
      assert multiset(other) == multiset(tar) && ReadBundle(c, other) != ReadBundle(c, tar);
    } else {
      forall other | multiset(other) == multiset(tar) ensures ReadBundle(c, other) == ReadBundle(c, tar) {
        OrderIrrelevantIf(c, tar, other);
      }
    }
  }

  // ---------------------------------------------------------------- the round trip

  function RawOf(item: Item): RawItem {
    RawItem(Some(Canonical(item.id)), Some(item.tool), Some(item.version), Some(item.category),
            Some(item.collectedAt), Some(item.file))
  }

  function RawsOf(items: seq<Item>): (raws: seq<RawItem>)
    ensures |raws| == |items| && forall i | 0 <= i < |items| :: raws[i] == RawOf(items[i])
  {
    seq(|items|, i requires 0 <= i < |items| => RawOf(items[i]))
  }

  function DocOf(man: Manifest): Doc {
    Doc(Some(man.schemaVersion), Some(man.collectorVersion), Some(man.collectedAt), Some(man.scope),
        Some(RawsOf(man.items)))
  }

  /** The libraries do their part: JSON and UUID text come back, the builder's times can be read. */
  ghost predicate Faithful(c: Codec, man: Manifest) {
    && c.unmarshal(c.marshal(man)) == Some(DocOf(man))
    && c.time(man.collectedAt).Some?
    && forall i | 0 <= i < |man.items| :: c.time(man.items[i].collectedAt).Some?
  }

  predicate IsBuilt(items: seq<Item>) {
    forall i | 0 <= i < |items| :: items[i].file == FileOf(items[i].id)
  }

  lemma {:induction false} FileNames(id: Uuid)
    ensures !IsUnsafe(FileOf(id)) && DropSlashes(FileOf(id)) == FileOf(id) && FileOf(id) != MANIFEST
  {
    CanonicalChars(id);
    var rest := Canonical(id) + ".raw";
    assert '/' !in rest;
    assert FileOf(id) == "items" + ['/'] + rest;
    SplitOnce('/', "items", rest);
    assert |rest| == 40;
    assert FileOf(id)[0] == 'i';
  }

  lemma {:induction false} FileNamesDiffer(a: Uuid, b: Uuid)
    ensures FileOf(a) == FileOf(b) <==> a == b
  {
    if FileOf(a) == FileOf(b) {
      assert Canonical(a) == FileOf(a)[6..42];
      assert Canonical(b) == FileOf(b)[6..42];
      CanonicalReadsBack(a);
      CanonicalReadsBack(b);
    }
  }

  /** The last item with the id of item `i`. */
  function LastWithId(items: seq<Item>, id: Uuid): (k: nat)
    requires exists i | 0 <= i < |items| :: items[i].id == id
    ensures k < |items| && items[k].id == id && forall j | k < j < |items| :: items[j].id != id
  {
    var n := |items| - 1;
    if items[n].id == id then n
    else
      assert exists i | 0 <= i < n :: items[..n][i].id == id by {
        var i :| 0 <= i < |items| && items[i].id == id;
        assert items[..n][i].id == id;
      }
      LastWithId(items[..n], id)
  }

  lemma {:induction false} AllItemsRead(c: Codec, tar: seq<Member>, raws: seq<RawItem>)
    requires forall i | 0 <= i < |raws| :: ReadItem(c, tar, raws[i]).Ok?
    ensures var r := ReadItems(c, tar, raws);
            r.Ok? && |r.value| == |raws| && forall i | 0 <= i < |raws| :: r.value[i] == ReadItem(c, tar, raws[i]).value
    decreases raws
  {
    if raws != [] {
      AllItemsRead(c, tar, raws[..|raws| - 1]);
    }
  }

  /** What the parser gets for a built item: everything as it was, the bytes of the last item of that id. */
  predicate ReadsAs(c: Codec, items: seq<Item>, i: nat, r: BundleItem)
    requires i < |items|
  {
    && r.id == items[i].id && r.tool == items[i].tool && r.version == items[i].version
    && r.category == items[i].category && r.file == items[i].file
    && c.time(items[i].collectedAt) == Some(r.collectedAt)
    && r.raw == items[LastWithId(items, items[i].id)].raw
  }

  /** What the archive holds for an item is what the last item with its id put there. */
  lemma {:induction false} BuiltMember(c: Codec, man: Manifest, i: nat)
    requires IsBuilt(man.items) && i < |man.items|
    ensures var item := man.items[i];
            Fetch(TarOf(c, man), item.file)
              == Found(item.file, Data(man.items[LastWithId(man.items, item.id)].raw))
  {
    hide FileOf, DropSlashes, LastWithId;
    var item := man.items[i];
    var tar := TarOf(c, man);
    var k := LastWithId(man.items, item.id);
    FileNames(item.id);
    forall j | k + 1 < j < |tar| ensures tar[j].name != item.file {
      FileNamesDiffer(man.items[j - 1].id, item.id);
    }
    LastOfName(tar, item.file, k + 1);
  }

  lemma {:induction false} BuiltItemReadsBack(c: Codec, man: Manifest, i: nat)
    requires Faithful(c, man) && IsBuilt(man.items) && i < |man.items|
    ensures var r := ReadItem(c, TarOf(c, man), RawOf(man.items[i])); r.Ok? && ReadsAs(c, man.items, i, r.value)
  {
    hide FileOf, Canonical, ReadUuid, IsUnsafe, DropSlashes, LastWithId, TarOf, Fetch;
    BuiltMember(c, man, i);
    FileNames(man.items[i].id);
    CanonicalIsRead(c.otherUuid, man.items[i].id);
  }

  lemma {:induction false} ManifestFound(c: Codec, man: Manifest)
    requires IsBuilt(man.items)
    ensures Fetch(TarOf(c, man), MANIFEST) == Found(MANIFEST, Data(c.marshal(man)))
  {
    hide FileOf;
    var tar := TarOf(c, man);
    forall j | 0 < j < |tar| ensures tar[j].name != MANIFEST {
      FileNames(man.items[j - 1].id);
    }
    LastOfName(tar, MANIFEST, 0);
  }

  /** Whatever was built is parsed, item by item in order. */
  lemma {:induction false} BuiltBundleReadsBack(c: Codec, man: Manifest)
    requires Faithful(c, man) && IsBuilt(man.items)
    ensures var r := ReadBundle(c, TarOf(c, man));
            && r.Ok? && |r.value.items| == |man.items|
            && r.value.schemaVersion == man.schemaVersion && r.value.collectorVersion == man.collectorVersion
            && r.value.scope == man.scope
            && forall i | 0 <= i < |man.items| :: ReadsAs(c, man.items, i, r.value.items[i])
  {
    hide FileOf, ReadItem, ReadsAs, TarOf, Canonical, Fetch;
    var tar := TarOf(c, man);
    var raws := RawsOf(man.items);
    ManifestFound(c, man);
    forall i | 0 <= i < |raws|
      ensures ReadItem(c, tar, raws[i]).Ok? && ReadsAs(c, man.items, i, ReadItem(c, tar, raws[i]).value)
    {
      BuiltItemReadsBack(c, man, i);
    }
    AllItemsRead(c, tar, raws);
  }

  /**
   What the collector gathered is what the service gets: with distinct ids, every item in order, with the id
   it came with (a new one if it had none), its bytes and its description.
   */
  lemma {:induction false} CollectedItemsReadBack(c: Codec, gathered: seq<Item>, newIds: seq<Uuid>, man: Manifest)
    requires |man.items| == |gathered| == |newIds|
    requires forall i | 0 <= i < |gathered| ::
               && man.items[i].id == (if gathered[i].id == NIL then newIds[i] else gathered[i].id)
               && man.items[i].file == "items/" + Canonical(man.items[i].id) + ".raw"
               && man.items[i].tool == gathered[i].tool && man.items[i].version == gathered[i].version
               && man.items[i].category == gathered[i].category
               && man.items[i].collectedAt == gathered[i].collectedAt && man.items[i].raw == gathered[i].raw
    requires forall i, j | 0 <= i < j < |gathered| :: man.items[i].id != man.items[j].id
    requires Faithful(c, man)
    ensures var r := ReadBundle(c, TarOf(c, man));
            && r.Ok? && |r.value.items| == |gathered|
            && forall i | 0 <= i < |gathered| ::
                 && (gathered[i].id != NIL ==> r.value.items[i].id == gathered[i].id)
                 && (gathered[i].id == NIL ==> r.value.items[i].id == newIds[i])
                 && r.value.items[i].raw == gathered[i].raw && r.value.items[i].tool == gathered[i].tool
                 && r.value.items[i].version == gathered[i].version
                 && r.value.items[i].category == gathered[i].category
                 && c.time(gathered[i].collectedAt) == Some(r.value.items[i].collectedAt)
  {
    hide ReadBundle, TarOf, LastWithId, Canonical, IsUuid;
    ShuffledBundleReadsBack(c, man, TarOf(c, man));
  }

  predicate SameIdSameBytes(items: seq<Item>) {
    forall i, j | 0 <= i < j < |items| && items[i].id == items[j].id :: items[i].raw == items[j].raw
  }

  /** The raw bytes come back exactly when items that share an id share their bytes. */
  lemma {:induction false} RawBytesReadBack(c: Codec, man: Manifest)
    requires Faithful(c, man) && IsBuilt(man.items)
    ensures var r := ReadBundle(c, TarOf(c, man));
            && r.Ok? && |r.value.items| == |man.items|
            && ((forall i | 0 <= i < |man.items| :: r.value.items[i].raw == man.items[i].raw)
                <==> SameIdSameBytes(man.items))
  {
    hide FileOf, ReadBundle, LastWithId, TarOf;
    BuiltBundleReadsBack(c, man);
    var items := man.items;
    var got := ReadBundle(c, TarOf(c, man)).value.items;
    if SameIdSameBytes(items) {
      forall i | 0 <= i < |items| ensures got[i].raw == items[i].raw {
        assert ReadsAs(c, items, i, got[i]);
        var k := LastWithId(items, items[i].id);
        assert i <= k;
      }
    } else {
      var i, j :| 0 <= i < j < |items| && items[i].id == items[j].id && items[i].raw != items[j].raw;
      assert ReadsAs(c, items, i, got[i]) && ReadsAs(c, items, j, got[j]);
      assert got[i].raw == got[j].raw;
    }
  }

  lemma {:induction false} BuiltHasNoLink(c: Codec, man: Manifest)
    ensures ReadsNoLink(c, TarOf(c, man))
  {
    hide Listed;
    assert forall k | 0 <= k < |TarOf(c, man)| :: TarOf(c, man)[k].file.Regular?;
  }

  /** Distinct ids: the round trip is exact and holds in whatever order the members are stored. */
  lemma {:induction false} ShuffledBundleReadsBack(c: Codec, man: Manifest, tar: seq<Member>)
    requires Faithful(c, man) && IsBuilt(man.items)
    requires forall i, j | 0 <= i < j < |man.items| :: man.items[i].id != man.items[j].id
    requires multiset(tar) == multiset(TarOf(c, man))
    ensures var r := ReadBundle(c, tar);
            && r.Ok? && |r.value.items| == |man.items|
            && forall i | 0 <= i < |man.items| ::
                 && r.value.items[i].id == man.items[i].id && r.value.items[i].raw == man.items[i].raw
                 && ReadsAs(c, man.items, i, r.value.items[i])
  {
    hide Fetch, ReadsNoLink, ReadItem, LastWithId;
    hide FileOf, ReadBundle;
    var built := TarOf(c, man);
    forall i, j | 0 <= i < j < |built| ensures built[i].name != built[j].name {
      FileNames(man.items[j - 1].id);
      if i > 0 { FileNamesDiffer(man.items[i - 1].id, man.items[j - 1].id); }
    }
    BuiltHasNoLink(c, man);
    MemberOrderIsIrrelevant(c, built, tar);
    BuiltBundleReadsBack(c, man);
    RawBytesReadBack(c, man);
  }
}
