/** The host filesystem as a value: a snapshot of a directory tree, taken
    once per request. Every failure of `java.nio.file.Files` that the store
    can meet is a flag on the node it concerns. */
module FileSystem {
  import opened Base
  import opened Text

  /** A path as its sequence of name segments. */
  type Path = seq<string>

  /** `listable` is false when `Files.list` fails with an IOException;
      `ctime` is `None` when the creation time cannot be read and `text` is
      `None` when the file cannot be read as a string. */
  datatype Node =
    | Dir(name: string, listable: bool, children: seq<Node>)
    | File(name: string, ctime: Option<int>, text: Option<string>)

  function NonEmpty(parts: seq<string>): (r: seq<string>)
    ensures forall i :: 0 <= i < |r| ==> r[i] != "" && r[i] in parts
  {
    if parts == [] then []
    else if parts[0] == "" then NonEmpty(parts[1..])
    else [parts[0]] + NonEmpty(parts[1..])
  }

  lemma {:induction false} NonEmptyAppend(a: seq<string>, b: seq<string>)
    ensures NonEmpty(a + b) == NonEmpty(a) + NonEmpty(b)
  {
    if a == [] {
      assert a + b == b;
    } else {
      assert (a + b)[0] == a[0];
      assert (a + b)[1..] == a[1..] + b;
      NonEmptyAppend(a[1..], b);
    }
  }

  /** `Path.of(s)` on a Unix filesystem: the string split at '/', with the
      empty names that repeated or trailing slashes leave dropped. */
  function Segments(s: string): (r: Path)
    ensures forall i :: 0 <= i < |r| ==> r[i] != "" && '/' !in r[i]
  {
    SplitOnPieces(s, '/');
    NonEmpty(SplitOn(s, '/'))
  }

  /** The segments of two strings joined by a slash are those of each. */
  lemma SegmentsAround(a: string, b: string)
    ensures Segments(a + "/" + b) == Segments(a) + Segments(b)
  {
    SplitOnAround(a, b, '/');
    NonEmptyAppend(SplitOn(a, '/'), SplitOn(b, '/'));
  }

  /** A non-empty name without a slash is exactly one segment. */
  lemma SegmentsOfName(s: string)
    requires s != "" && '/' !in s
    ensures Segments(s) == [s]
  {
    SplitOnWithout(s, '/');
    assert [s][1..] == [];
    assert NonEmpty([s]) == [s] + NonEmpty([]);
  }

  lemma SegmentsOfEmpty()
    ensures Segments("") == []
  {
  }

  /** `p.resolve(s)` for a relative `s`. */
  function Resolve(p: Path, s: string): Path
  {
    p + Segments(s)
  }

  function FindChild(children: seq<Node>, name: string): (r: Option<Node>)
    ensures r.Some? ==> r.value in children && r.value.name == name
    ensures r.None? ==> forall i :: 0 <= i < |children| ==> children[i].name != name
  {
    if children == [] then None
    else if children[0].name == name then Some(children[0])
    else FindChild(children[1..], name)
  }

  /** The node a path names, starting from the root directory `root`. */
  function Lookup(root: Node, p: Path): Option<Node>
  {
    if p == [] then Some(root)
    else if !root.Dir? then None
    else match FindChild(root.children, p[0])
      case None => None
      case Some(child) => Lookup(child, p[1..])
  }

  /** `getFileName()` as messages print it: the last segment. */
  function FileName(p: Path): (r: string)
    ensures p != [] ==> r == p[|p| - 1]
  {
    if p == [] then "" else p[|p| - 1]
  }

  /** `Files.exists`. */
  predicate Exists(root: Node, p: Path)
  {
    Lookup(root, p).Some?
  }

  /** `Files.isRegularFile`. */
  predicate IsRegularFile(root: Node, p: Path)
  {
    Lookup(root, p).Some? && Lookup(root, p).value.File?
  }

  /** `Files.readString`: fails on a missing path, on a directory and on an
      unreadable file. */
  function ReadString(root: Node, p: Path): (r: Option<string>)
    ensures r.Some? ==> IsRegularFile(root, p)
  {
    match Lookup(root, p)
    case Some(File(_, _, text)) => text
    case _ => None
  }
}
