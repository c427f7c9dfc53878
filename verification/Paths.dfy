/** The path functions of Python's standard library that archive links are resolved with. */
module Paths {
  import opened Strings

  function DropSlashes(name: string): string {
    if name != "" && name[|name| - 1] == '/' then DropSlashes(name[..|name| - 1]) else name
  }

  function UpToLastSlash(path: string): string {
    if path == "" || path[|path| - 1] == '/' then path else UpToLastSlash(path[..|path| - 1])
  }

  /** `os.path.dirname`. */
  function DirName(path: string): string {
    var head := UpToLastSlash(path);
    if DropSlashes(head) == "" then head else DropSlashes(head)
  }

  /** One part of a path after the parts kept so far: dots vanish, two dots take a part back. */
  function AddPart(kept: seq<string>, part: string, rooted: bool): seq<string> {
    if part == "" || part == "." then kept
    else if part != ".." || (!rooted && kept == []) || (kept != [] && kept[|kept| - 1] == "..") then kept + [part]
    else if kept != [] then kept[..|kept| - 1]
    else kept
  }

  function AddParts(kept: seq<string>, parts: seq<string>, rooted: bool): seq<string>
    decreases parts
  {
    if parts == [] then kept else AddParts(AddPart(kept, parts[0], rooted), parts[1..], rooted)
  }

  function Join(parts: seq<string>): string {
    if parts == [] then ""
    else if |parts| == 1 then parts[0]
    else parts[0] + "/" + Join(parts[1..])
  }

  /** The slashes that a normalized path keeps at its start. */
  function Root(path: string): string {
    if |path| >= 2 && path[..2] == "//" && !(|path| >= 3 && path[2] == '/') then "//"
    else if path != "" && path[0] == '/' then "/"
    else ""
  }

  /** `os.path.normpath`. */
  function Normalize(path: string): string {
    var root := Root(path);
    var normal := root + Join(AddParts([], Split('/', path), root != ""));
    if normal == "" then "." else normal
  }

  lemma {:induction false} SplitFirst(a: string, b: string)
    requires '/' !in a
    ensures Split('/', a + "/" + b) == [a] + Split('/', b)
  {
    FindAfter('/', a, b);
    var s := a + ['/'] + b;
    assert s[..|a|] == a && s[|a| + 1..] == b;
  }

  lemma {:induction false} SplitLast(a: string)
    requires '/' !in a
    ensures Split('/', a) == [a]
  {
  }
}
