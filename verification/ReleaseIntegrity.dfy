/** The hash of an installed directory tree (src/security/release-integrity.ts). */
module ReleaseIntegrity {
  import opened Prelude
  import opened Sorting

  /** A directory tree as readdir shows it: `Other` stands for anything that is neither a
      file nor a directory. */
  datatype Node = File(content: string) | Dir(entries: seq<Entry>) | Other

  datatype Entry = Entry(name: string, node: Node)

  const NUL := 0 as char
  const HEX_LENGTH := 64

  predicate ValidName(name: string) {
    name != "" && '/' !in name && NUL !in name
  }

  /** What a file system guarantees: valid names, each used once per directory. */
  predicate WellFormed(es: seq<Entry>) {
    && (forall i, j :: 0 <= i < j < |es| ==> es[i].name != es[j].name)
    && forall i :: 0 <= i < |es| ==> ValidName(es[i].name) && (es[i].node.Dir? ==> WellFormed(es[i].node.entries))
  }

  // ---------------------------------------------------------------- what a tree holds

  type Path = seq<string>

  /** The files of a tree: their paths, by components, with their contents. */
  ghost predicate Holds(es: seq<Entry>, p: Path, content: string)
    decreases |p|
  {
    && p != []
    && exists i :: 0 <= i < |es| && HoldsAt(es, i, p, content)
  }

  ghost predicate HoldsAt(es: seq<Entry>, i: nat, p: Path, content: string)
    requires i < |es| && p != []
    decreases |p|, 0
  {
    && es[i].name == p[0]
    && match es[i].node
       case File(c) => |p| == 1 && c == content
       case Dir(sub) => |p| > 1 && Holds(sub, p[1..], content)
       case Other => false
  }

  ghost predicate SameFiles(a: seq<Entry>, b: seq<Entry>) {
    forall p, content :: Holds(a, p, content) <==> Holds(b, p, content)
  }

  // ---------------------------------------------------------------- path texts

  function Join(p: Path): string {
    if p == [] then "" else if |p| == 1 then p[0] else p[0] + (['/'] + Join(p[1..]))
  }

  function IsSlash(): char -> bool {
    (c: char) => c == '/'
  }

  function Split(s: string): Path
    decreases |s|
  {
    var i := First(s, IsSlash());
    if i == |s| then [s] else [s[..i]] + Split(s[i + 1..])
  }

  predicate ValidPath(p: Path) {
    p != [] && forall i :: 0 <= i < |p| ==> ValidName(p[i])
  }

  lemma NoSlash(s: string)
    requires '/' !in s
    ensures First(s, IsSlash()) == |s|
  {
    assert forall k :: 0 <= k < |s| ==> s[k] in s;
  }

  lemma FirstSlash(x: string, y: string)
    requires '/' !in x
    ensures First(x + (['/'] + y), IsSlash()) == |x|
  {
    var s := x + (['/'] + y);
    assert s[|x|] == '/';
    assert forall k :: 0 <= k < |x| ==> s[k] == x[k] && x[k] in x;
  }

  lemma SplitAtSlash(x: string, y: string)
    requires '/' !in x
    ensures Split(x + (['/'] + y)) == [x] + Split(y)
  {
    FirstSlash(x, y);
    hide First;
    var s := x + (['/'] + y);
    assert s[..|x|] == x && s[|x| + 1..] == y;
  }

  lemma {:induction false} SplitJoin(p: Path)
    requires ValidPath(p)
    ensures Split(Join(p)) == p
  {
    if |p| == 1 {
      NoSlash(p[0]);
      assert p == [p[0]];
    } else {
      hide Split;
      assert ValidName(p[0]);
      SplitAtSlash(p[0], Join(p[1..]));
      SplitJoin(p[1..]);
      assert p == [p[0]] + p[1..];
    }
  }

  lemma JoinInjective(p: Path, q: Path)
    requires ValidPath(p) && ValidPath(q) && Join(p) == Join(q)
    ensures p == q
  {
    SplitJoin(p);
    SplitJoin(q);
  }

  /** The text of a path one level deeper, as collectFiles builds it. */
  function Extend(prefix: string, name: string): string {
    if prefix != "" then prefix + (['/'] + name) else name
  }

  lemma {:induction false} JoinExtend(p: Path, name: string)
    requires p == [] || ValidPath(p)
    ensures Join(p + [name]) == Extend(Join(p), name)
  {
    if p == [] {
      assert p + [name] == [name];
    } else if |p| == 1 {
      assert (p + [name])[1..] == [name];
    } else {
      JoinExtend(p[1..], name);
      assert (p + [name])[1..] == p[1..] + [name];
      assert ValidName(p[1..][0]);
      Regroup(p[0], ['/'], Join(p[1..]), ['/'] + name);
    }
  }

  lemma Regroup(a: string, b: string, c: string, d: string)
    ensures a + (b + (c + d)) == (a + (b + c)) + d
  {
  }

  lemma {:induction false} JoinHasNoNul(p: Path)
    requires ValidPath(p)
    ensures NUL !in Join(p)
  {
    if |p| > 1 {
      JoinHasNoNul(p[1..]);
      assert forall c :: c in Join(p) ==> c in p[0] || c == '/' || c in Join(p[1..]);
    }
  }

  // ---------------------------------------------------------------- collecting the files

  function Collect(es: seq<Entry>, prefix: string): seq<string> {
    if es == [] then []
    else Collect(es[..|es| - 1], prefix) + EntryPaths(es[|es| - 1], prefix)
  }

  function EntryPaths(e: Entry, prefix: string): seq<string> {
    match e.node
    case File(_) => [Extend(prefix, e.name)]
    case Dir(sub) => Collect(sub, Extend(prefix, e.name))
    case Other => []
  }

  /** collectFiles: a recursion that pushes the paths of each directory in listing order. */
  method CollectFiles(es: seq<Entry>, prefix: string) returns (results: seq<string>)
    ensures results == Collect(es, prefix)
    decreases es
  {
    results := [];
    for i := 0 to |es|
      invariant results == Collect(es[..i], prefix)
    {
      assert es[..i + 1][..i] == es[..i];
      var relPath := if prefix != "" then prefix + (['/'] + es[i].name) else es[i].name;
      if es[i].node.Dir? {
        var below := CollectFiles(es[i].node.entries, relPath);
        results := results + below;
      } else if es[i].node.File? {
        results := results + [relPath];
      }
    }
    assert es[..|es|] == es;
  }

  lemma HolderOf(es: seq<Entry>, p: Path, content: string) returns (i: nat)
    requires Holds(es, p, content)
    ensures p != [] && i < |es| && HoldsAt(es, i, p, content)
  {
    i :| 0 <= i < |es| && HoldsAt(es, i, p, content);
  }

  lemma HeldAt(es: seq<Entry>, i: nat, p: Path, content: string)
    requires p != [] && i < |es| && HoldsAt(es, i, p, content)
    ensures Holds(es, p, content)
  {
  }

  lemma HoldsSplit(es: seq<Entry>, p: Path, content: string)
    requires es != [] && p != []
    ensures Holds(es, p, content) <==> Holds(es[..|es| - 1], p, content) || HoldsAt(es, |es| - 1, p, content)
  {
    hide Holds;
    var n := |es| - 1;
    if Holds(es, p, content) {
      var i := HolderOf(es, p, content);
      if i < n {
        HeldAt(es[..n], i, p, content);
      }
    }
    if Holds(es[..n], p, content) {
      var i := HolderOf(es[..n], p, content);
      HeldAt(es, i, p, content);
    }
    if HoldsAt(es, n, p, content) {
      HeldAt(es, n, p, content);
    }
  }

  lemma WellFormedPrefix(es: seq<Entry>)
    requires WellFormed(es) && es != []
    ensures WellFormed(es[..|es| - 1])
  {
  }

  ghost predicate Names(es: seq<Entry>, pre: Path, s: string, p: Path, content: string) {
    Holds(es, p, content) && ValidPath(p) && s == Join(pre + p)
  }

  /** Every collected path names a file of the tree. */
  lemma {:induction false} CollectedIsHeld(es: seq<Entry>, pre: Path, s: string) returns (p: Path, content: string)
    requires WellFormed(es) && (pre == [] || ValidPath(pre))
    requires s in Collect(es, Join(pre))
    ensures Names(es, pre, s, p, content)
    decreases es
  {
    var n := |es| - 1;
    WellFormedPrefix(es);
    if s in Collect(es[..n], Join(pre)) {
      p, content := CollectedIsHeld(es[..n], pre, s);
      HoldsSplit(es, p, content);
    } else {
      var name := es[n].name;
      JoinExtend(pre, name);
      match es[n].node {
        case File(c) =>
          p, content := [name], c;
        case Dir(sub) =>
          var q, c := CollectedIsHeld(sub, pre + [name], s);
          p, content := [name] + q, c;
          assert p[1..] == q && pre + p == (pre + [name]) + q;
      }
      assert HoldsAt(es, n, p, content);
    }
  }

  /** Every file of the tree is collected under its path. */
  lemma {:induction false} HeldIsCollected(es: seq<Entry>, pre: Path, p: Path, content: string)
    requires WellFormed(es) && (pre == [] || ValidPath(pre)) && Holds(es, p, content)
    ensures ValidPath(p) && Join(pre + p) in Collect(es, Join(pre))
    decreases es
  {
    var n := |es| - 1;
    WellFormedPrefix(es);
    HoldsSplit(es, p, content);
    if Holds(es[..n], p, content) {
      HeldIsCollected(es[..n], pre, p, content);
    } else {
      var name := es[n].name;
      JoinExtend(pre, name);
      if es[n].node.File? {
        assert p == [name];
      } else {
        HeldIsCollected(es[n].node.entries, pre + [name], p[1..], content);
        assert p == [name] + p[1..] && pre + p == (pre + [name]) + p[1..];
      }
    }
  }

  lemma CollectedUnderName(es: seq<Entry>, pre: Path, s: string) returns (p: Path, i: nat)
    requires WellFormed(es) && (pre == [] || ValidPath(pre)) && s in Collect(es, Join(pre))
    ensures ValidPath(p) && s == Join(pre + p) && i < |es| && es[i].name == p[0]
  {
    var c;
    p, c := CollectedIsHeld(es, pre, s);
    i := HolderOf(es, p, c);
  }

  /** No path is collected twice. */
  lemma {:induction false} CollectedOnce(es: seq<Entry>, pre: Path)
    requires WellFormed(es) && (pre == [] || ValidPath(pre))
    ensures Distinct(Collect(es, Join(pre)))
    decreases es
  {
    if es != [] {
      var n := |es| - 1;
      WellFormedPrefix(es);
      CollectedOnce(es[..n], pre);
      JoinExtend(pre, es[n].name);
      if es[n].node.Dir? {
        CollectedOnce(es[n].node.entries, pre + [es[n].name]);
      }
      forall s, t | s in Collect(es[..n], Join(pre)) && t in EntryPaths(es[n], Join(pre)) ensures s != t {
        SiblingPathsDiffer(es, pre, s, t);
      }
      DistinctConcat(Collect(es[..n], Join(pre)), EntryPaths(es[n], Join(pre)));
    }
  }

  lemma DistinctConcat(a: seq<string>, b: seq<string>)
    requires Distinct(a) && Distinct(b) && forall s :: s in a ==> s !in b
    ensures Distinct(a + b)
  {
    forall i, j | 0 <= i < j < |a + b| ensures (a + b)[i] != (a + b)[j] {
      if i < |a| {
        assert a[i] in a;
      }
    }
  }

  lemma SiblingPathsDiffer(es: seq<Entry>, pre: Path, s: string, t: string)
    requires WellFormed(es) && es != [] && (pre == [] || ValidPath(pre))
    requires s in Collect(es[..|es| - 1], Join(pre)) && t in EntryPaths(es[|es| - 1], Join(pre))
    ensures s != t
  {
    hide Collect, EntryPaths, Join;
    var n := |es| - 1;
    WellFormedPrefix(es);
    OnlyEntry(es[n], Join(pre));
    var p, i := CollectedUnderName(es[..n], pre, s);
    var q, j := CollectedUnderName([es[n]], pre, t);
    DifferentHeads(pre, p, q);
  }

  lemma DifferentHeads(pre: Path, p: Path, q: Path)
    requires (pre == [] || ValidPath(pre)) && ValidPath(p) && ValidPath(q) && p[0] != q[0]
    ensures Join(pre + p) != Join(pre + q)
  {
    SplitJoin(pre + p);
    SplitJoin(pre + q);
    assert (pre + p)[|pre|] == p[0] && (pre + q)[|pre|] == q[0];
  }

  lemma OnlyEntry(e: Entry, prefix: string)
    ensures Collect([e], prefix) == EntryPaths(e, prefix)
  {
    assert [e][..0] == [] && Collect([e][..0], prefix) == [];
  }

  // ---------------------------------------------------------------- reading a file by its path

  function Named(name: string): Entry -> bool {
    (e: Entry) => e.name == name
  }

  function Read(es: seq<Entry>, p: Path): Option<string>
    decreases |p|
  {
    if p == [] then None
    else
      var i := First(es, Named(p[0]));
      if i == |es| then None
      else match es[i].node
           case File(c) => if |p| == 1 then Some(c) else None
           case Dir(sub) => if |p| > 1 then Read(sub, p[1..]) else None
           case Other => None
  }

  lemma {:induction false} ReadExact(es: seq<Entry>, p: Path, content: string)
    requires WellFormed(es)
    ensures Read(es, p) == Some(content) <==> Holds(es, p, content)
    decreases |p|
  {
    if p != [] {
      var i := First(es, Named(p[0]));
      if i < |es| {
        if es[i].node.Dir? && |p| > 1 {
          ReadExact(es[i].node.entries, p[1..], content);
        }
        assert Read(es, p) == Some(content) <==> HoldsAt(es, i, p, content);
        forall k | 0 <= k < |es| && HoldsAt(es, k, p, content) ensures k == i {
          assert es[k].name == es[i].name;
        }
      } else {
        forall k | 0 <= k < |es| ensures !HoldsAt(es, k, p, content) {
          assert !Named(p[0])(es[k]);
        }
      }
    }
  }

  function ReadFile(es: seq<Entry>, relPath: string): Option<string> {
    Read(es, Split(relPath))
  }

  lemma CollectedFilesReadable(es: seq<Entry>, s: string) returns (p: Path, content: string)
    requires WellFormed(es) && s in Collect(es, "")
    ensures ValidPath(p) && s == Join(p) && NUL !in s && ReadFile(es, s) == Some(content) && Holds(es, p, content)
  {
    p, content := CollectedIsHeld(es, [], s);
    assert [] + p == p;
    SplitJoin(p);
    JoinHasNoNul(p);
    ReadExact(es, p, content);
  }

  // ---------------------------------------------------------------- sorting the paths

  ghost predicate TotalOrder(le: (string, string) -> bool) {
    TotalPreorder(le) && forall a, b :: le(a, b) && le(b, a) ==> a == b
  }

  lemma Antisymmetric(le: (string, string) -> bool, a: string, b: string)
    requires TotalOrder(le)
    ensures le(a, b) && le(b, a) ==> a == b
    ensures le(a, b) || le(b, a)
  {
  }

  /** The UTF-16 code units of a character. */
  function Units(c: char): seq<int> {
    var x := c as int;
    if x < 0x1_0000 then [x]
    else [0xD800 + (x - 0x1_0000) / 0x400, 0xDC00 + (x - 0x1_0000) % 0x400]
  }

  function CodeUnits(s: string): seq<int> {
    if s == "" then [] else Units(s[0]) + CodeUnits(s[1..])
  }

  predicate Lexicographic(a: seq<int>, b: seq<int>) {
    a == [] || (b != [] && (a[0] < b[0] || (a[0] == b[0] && Lexicographic(a[1..], b[1..]))))
  }

  /** The order of sort without a comparison: strings compare by their code units. */
  function SortOrder(): (string, string) -> bool {
    (a: string, b: string) => Lexicographic(CodeUnits(a), CodeUnits(b))
  }

  lemma {:induction false} LexicographicTotal(a: seq<int>, b: seq<int>)
    ensures Lexicographic(a, b) || Lexicographic(b, a)
    ensures Lexicographic(a, b) && Lexicographic(b, a) ==> a == b
  {
    if a != [] && b != [] {
      LexicographicTotal(a[1..], b[1..]);
      assert a == [a[0]] + a[1..] && b == [b[0]] + b[1..];
    }
  }

  lemma {:induction false} LexicographicChains(a: seq<int>, b: seq<int>, c: seq<int>)
    requires Lexicographic(a, b) && Lexicographic(b, c)
    ensures Lexicographic(a, c)
  {
    if a != [] && a[0] == b[0] == c[0] {
      LexicographicChains(a[1..], b[1..], c[1..]);
    }
  }

  lemma UnitsPrefixFree(c: char, d: char, x: seq<int>, y: seq<int>)
    requires Units(c) + x == Units(d) + y
    ensures c == d && x == y
  {
    var u, v := Units(c) + x, Units(d) + y;
    assert u[0] == Units(c)[0] && v[0] == Units(d)[0];
    if c as int >= 0x1_0000 {
      assert u[1] == Units(c)[1] && v[1] == Units(d)[1];
    }
    assert x == u[|Units(c)|..] && y == v[|Units(d)|..];
  }

  lemma {:induction false} CodeUnitsInjective(s: string, t: string)
    requires CodeUnits(s) == CodeUnits(t)
    ensures s == t
  {
    if s != "" && t != "" {
      UnitsPrefixFree(s[0], t[0], CodeUnits(s[1..]), CodeUnits(t[1..]));
      CodeUnitsInjective(s[1..], t[1..]);
      assert s == [s[0]] + s[1..] && t == [t[0]] + t[1..];
    }
  }

  /** The order that sort uses is a total order, as the theorems below ask for. */
  lemma SortOrderIsTotal()
    ensures TotalOrder(SortOrder())
  {
    hide Lexicographic, CodeUnits;
    forall a: string, b: string
      ensures SortOrder()(a, b) || SortOrder()(b, a)
      ensures SortOrder()(a, b) && SortOrder()(b, a) ==> a == b
    {
      LexicographicTotal(CodeUnits(a), CodeUnits(b));
      if CodeUnits(a) == CodeUnits(b) {
        CodeUnitsInjective(a, b);
      }
    }
    forall a: string, b: string, c: string | SortOrder()(a, b) && SortOrder()(b, c) ensures SortOrder()(a, c) {
      LexicographicChains(CodeUnits(a), CodeUnits(b), CodeUnits(c));
    }
  }

  /** Sorting leaves only one arrangement of the same elements. */
  lemma {:induction false} SortedIsUnique(s: seq<string>, t: seq<string>, le: (string, string) -> bool)
    requires TotalOrder(le) && SortedBy(s, le) && SortedBy(t, le) && multiset(s) == multiset(t)
    ensures s == t
    decreases |s|
  {
    hide TotalOrder;
    assert |s| == |multiset(s)| && |t| == |multiset(t)|;
    if s != [] {
      var n := |s| - 1;
      Antisymmetric(le, s[n], t[n]);
      assert s[n] in multiset(t) && t[n] in multiset(s);
      var i :| 0 <= i <= n && t[i] == s[n];
      var j :| 0 <= j <= n && s[j] == t[n];
      assert s[n] == t[n] by {
        assert i < n ==> le(t[i], t[n]);
        assert j < n ==> le(s[j], s[n]);
      }
      RemoveFromBoth(s, n, t, n);
      assert s[..n] + s[n + 1..] == s[..n] && t[..n] + t[n + 1..] == t[..n];
      SortedIsUnique(s[..n], t[..n], le);
      assert s == s[..n] + [s[n]] && t == t[..n] + [t[n]];
    }
  }

  lemma {:induction false} DistinctSameElements(s: seq<string>, t: seq<string>)
    requires Distinct(s) && Distinct(t) && forall x :: x in s <==> x in t
    ensures multiset(s) == multiset(t)
  {
    forall x ensures multiset(s)[x] == multiset(t)[x] {
      DistinctCount(s, x);
      DistinctCount(t, x);
    }
  }

  // ---------------------------------------------------------------- the hashed stream

  datatype Record = Record(path: string, content: string)

  /** A digest is 64 hex characters long. */
  ghost predicate FixedLength(sha: string -> string) {
    forall x :: |sha(x)| == HEX_LENGTH
  }

  /** The file contents that are hashed on their own. */
  function Contents(rs: seq<Record>): set<string> {
    set r | r in rs :: r.content
  }

  function LineThen(r: Record, sha: string -> string, rest: string): string {
    r.path + ([NUL] + (sha(r.content) + (['\n'] + rest)))
  }

  /** What is fed to the tree hasher: path, NUL, content hash and newline for each file. */
  function Stream(rs: seq<Record>, sha: string -> string): string {
    if rs == [] then "" else LineThen(rs[0], sha, Stream(rs[1..], sha))
  }

  lemma {:induction false} StreamAppend(rs: seq<Record>, r: Record, sha: string -> string)
    ensures Stream(rs + [r], sha) == Stream(rs, sha) + LineThen(r, sha, "")
  {
    if rs == [] {
      assert rs + [r] == [r];
    } else {
      StreamAppend(rs[1..], r, sha);
      assert (rs + [r])[1..] == rs[1..] + [r];
      LineAppend(rs[0], sha, Stream(rs[1..], sha), LineThen(r, sha, ""));
    }
  }

  lemma LineAppend(r: Record, sha: string -> string, x: string, y: string)
    ensures LineThen(r, sha, x + y) == LineThen(r, sha, x) + y
  {
  }

  lemma UpToNul(p: string, q: string, x: string, y: string)
    requires NUL !in p && NUL !in q && p + ([NUL] + x) == q + ([NUL] + y)
    ensures p == q && x == y
  {
    var u, v := p + ([NUL] + x), q + ([NUL] + y);
    assert u[|p|] == NUL && v[|q|] == NUL;
    assert forall i :: 0 <= i < |p| ==> u[i] == p[i] && u[i] in p;
    assert forall i :: 0 <= i < |q| ==> v[i] == q[i] && v[i] in q;
    assert |p| == |q|;
    assert p == u[..|p|] && q == v[..|q|] && x == u[|p| + 1..] && y == v[|q| + 1..];
  }

  lemma SameLengthPrefix(h: string, k: string, x: string, y: string)
    requires |h| == |k| && h + x == k + y
    ensures h == k && x == y
  {
    assert h == (h + x)[..|h|] && k == (k + y)[..|k|];
    assert x == (h + x)[|h|..] && y == (k + y)[|k|..];
  }

  /** The first line can be read back, whatever follows. */
  lemma LineDecodes(r: Record, t: Record, sha: string -> string, x: string, y: string)
    requires FixedLength(sha) && NUL !in r.path && NUL !in t.path && LineThen(r, sha, x) == LineThen(t, sha, y)
    ensures r.path == t.path && sha(r.content) == sha(t.content) && x == y
  {
    UpToNul(r.path, t.path, sha(r.content) + (['\n'] + x), sha(t.content) + (['\n'] + y));
    SameLengthPrefix(sha(r.content), sha(t.content), ['\n'] + x, ['\n'] + y);
    SameLengthPrefix(['\n'], ['\n'], x, y);
  }

  ghost predicate NulFree(rs: seq<Record>) {
    forall i :: 0 <= i < |rs| ==> NUL !in rs[i].path
  }

  /** Unique decodability, although paths may contain newlines: equal streams list the same
      paths with the same content digests. */
  lemma {:induction false} StreamDecodes(rs: seq<Record>, ts: seq<Record>, sha: string -> string)
    requires FixedLength(sha) && NulFree(rs) && NulFree(ts) && Stream(rs, sha) == Stream(ts, sha)
    ensures |rs| == |ts|
    ensures forall i :: 0 <= i < |rs| ==> rs[i].path == ts[i].path && sha(rs[i].content) == sha(ts[i].content)
    decreases |rs|
  {
    if rs != [] && ts != [] {
      LineDecodes(rs[0], ts[0], sha, Stream(rs[1..], sha), Stream(ts[1..], sha));
      StreamDecodes(rs[1..], ts[1..], sha);
      assert rs == [rs[0]] + rs[1..] && ts == [ts[0]] + ts[1..];
    }
  }

  /** Equal streams are streams of the same records, unless two of the contents collide. */
  lemma StreamDeterminesRecords(rs: seq<Record>, ts: seq<Record>, sha: string -> string)
    requires FixedLength(sha) && NulFree(rs) && NulFree(ts) && Stream(rs, sha) == Stream(ts, sha)
    requires CollisionFreeOn(sha, Contents(rs) + Contents(ts))
    ensures rs == ts
  {
    StreamDecodes(rs, ts, sha);
    forall i | 0 <= i < |rs| ensures rs[i] == ts[i] {
      assert rs[i].content in Contents(rs) && ts[i].content in Contents(ts);
    }
  }

  // ---------------------------------------------------------------- the tree hash

  function ContentOf(es: seq<Entry>, relPath: string): string {
    var c := ReadFile(es, relPath);
    if c.Some? then c.value else ""
  }

  function RecordsOf(es: seq<Entry>, files: seq<string>): seq<Record> {
    seq(|files|, i requires 0 <= i < |files| => Record(files[i], ContentOf(es, files[i])))
  }

  function SortedFiles(es: seq<Entry>, le: (string, string) -> bool): seq<string> {
    Sort(Collect(es, ""), le)
  }

  function TreeHash(es: seq<Entry>, sha: string -> string, le: (string, string) -> bool): string {
    sha(Stream(RecordsOf(es, SortedFiles(es, le)), sha))
  }

  lemma EmptyStream(es: seq<Entry>, files: seq<string>, sha: string -> string)
    ensures Stream(RecordsOf(es, files[..0]), sha) == ""
  {
  }

  /** computeDistHash, for a digest and the order that sort uses on strings. */
  method ComputeDistHash(es: seq<Entry>, sha: string -> string, le: (string, string) -> bool) returns (h: string)
    requires WellFormed(es) && TotalOrder(le)
    ensures h == TreeHash(es, sha, le)
  {
    hide TotalPreorder, Sort, Stream, WellFormed, Collect;
    var files := CollectFiles(es, "");
    ghost var collected := files;
    files := Sort(files, le);
    SortSorts(collected, le);
    var fed := "";
    EmptyStream(es, files, sha);
    for i := 0 to |files|
      invariant fed == Stream(RecordsOf(es, files[..i]), sha)
    {
      var relPath := files[i];
      assert relPath in multiset(collected);
      ghost var p, c := CollectedFilesReadable(es, relPath);
      var content := ReadFile(es, relPath).value;
      var fileHash := sha(content);
      StreamAppend(RecordsOf(es, files[..i]), Record(relPath, content), sha);
      assert RecordsOf(es, files[..i + 1]) == RecordsOf(es, files[..i]) + [Record(relPath, content)];
      fed := fed + (relPath + ([NUL] + (fileHash + (['\n'] + ""))));
    }
    assert files[..|files|] == files;
    h := sha(fed);
  }

  lemma SortedMembers(es: seq<Entry>, le: (string, string) -> bool, s: string)
    requires TotalOrder(le)
    ensures s in SortedFiles(es, le) <==> s in Collect(es, "")
  {
    SortSorts(Collect(es, ""), le);
    assert s in SortedFiles(es, le) <==> s in multiset(SortedFiles(es, le));
    assert s in Collect(es, "") <==> s in multiset(Collect(es, ""));
  }

  lemma SameFilesSamePaths(a: seq<Entry>, b: seq<Entry>, s: string)
    requires WellFormed(a) && WellFormed(b) && SameFiles(a, b) && s in Collect(a, "")
    ensures s in Collect(b, "") && ContentOf(a, s) == ContentOf(b, s)
  {
    var p, content := CollectedFilesReadable(a, s);
    assert Holds(b, p, content);
    HeldIsCollected(b, [], p, content);
    assert [] + p == p;
    SplitJoin(p);
    ReadExact(b, p, content);
  }

  lemma SameFilesSameHash(a: seq<Entry>, b: seq<Entry>, sha: string -> string, le: (string, string) -> bool)
    requires WellFormed(a) && WellFormed(b) && TotalOrder(le) && SameFiles(a, b)
    ensures TreeHash(a, sha, le) == TreeHash(b, sha, le)
  {
    hide Collect, TotalPreorder, WellFormed, Holds;
    var ca, cb := Collect(a, ""), Collect(b, "");
    forall s ensures s in ca <==> s in cb {
      if s in ca {
        SameFilesSamePaths(a, b, s);
      }
      if s in cb {
        SameFilesSamePaths(b, a, s);
      }
    }
    CollectedOnce(a, []);
    CollectedOnce(b, []);
    DistinctSameElements(ca, cb);
    SortSorts(ca, le);
    SortSorts(cb, le);
    SortedIsUnique(Sort(ca, le), Sort(cb, le), le);
    var files := SortedFiles(a, le);
    forall i | 0 <= i < |files| ensures ContentOf(a, files[i]) == ContentOf(b, files[i]) {
      SortedMembers(a, le, files[i]);
      SameFilesSamePaths(a, b, files[i]);
    }
    assert RecordsOf(a, files) == RecordsOf(b, files);
  }

  lemma SortedRecordsNulFree(es: seq<Entry>, le: (string, string) -> bool)
    requires WellFormed(es) && TotalOrder(le)
    ensures NulFree(RecordsOf(es, SortedFiles(es, le)))
  {
    var files := SortedFiles(es, le);
    forall i | 0 <= i < |files| ensures NUL !in files[i] {
      SortedMembers(es, le, files[i]);
      var p, c := CollectedFilesReadable(es, files[i]);
    }
  }

  lemma SameRecordsHold(a: seq<Entry>, b: seq<Entry>, le: (string, string) -> bool, p: Path, content: string)
    requires WellFormed(a) && WellFormed(b) && TotalOrder(le) && Holds(a, p, content)
    requires RecordsOf(a, SortedFiles(a, le)) == RecordsOf(b, SortedFiles(b, le))
    ensures Holds(b, p, content)
  {
    var fa, fb := SortedFiles(a, le), SortedFiles(b, le);
    HeldIsCollected(a, [], p, content);
    assert [] + p == p;
    SortedMembers(a, le, Join(p));
    var i :| 0 <= i < |fa| && fa[i] == Join(p);
    assert RecordsOf(a, fa)[i] == RecordsOf(b, fb)[i];
    SortedMembers(b, le, fb[i]);
    var q, c := CollectedFilesReadable(b, fb[i]);
    JoinInjective(p, q);
    SplitJoin(p);
    ReadExact(a, p, content);
  }

  /** Everything computeDistHash hashes: the contents of the files, and the stream. */
  function Hashed(es: seq<Entry>, sha: string -> string, le: (string, string) -> bool): set<string> {
    var rs := RecordsOf(es, SortedFiles(es, le));
    Contents(rs) + {Stream(rs, sha)}
  }

  lemma SameHashSameFiles(a: seq<Entry>, b: seq<Entry>, sha: string -> string, le: (string, string) -> bool)
    requires WellFormed(a) && WellFormed(b) && TotalOrder(le) && FixedLength(sha)
    requires CollisionFreeOn(sha, Hashed(a, sha, le) + Hashed(b, sha, le))
    requires TreeHash(a, sha, le) == TreeHash(b, sha, le)
    ensures SameFiles(a, b)
  {
    var ra, rb := RecordsOf(a, SortedFiles(a, le)), RecordsOf(b, SortedFiles(b, le));
    SortedRecordsNulFree(a, le);
    SortedRecordsNulFree(b, le);
    StreamDeterminesRecords(ra, rb, sha);
    forall p, content ensures Holds(a, p, content) <==> Holds(b, p, content) {
      if Holds(a, p, content) {
        SameRecordsHold(a, b, le, p, content);
      }
      if Holds(b, p, content) {
        SameRecordsHold(b, a, le, p, content);
      }
    }
  }

  /** The tree hash is exact: trees that hold the same relative paths with the same contents
      have the same hash, and trees that have the same hash hold the same files, unless two
      different strings among those hashed for the two trees have one digest. */
  lemma HashExact(a: seq<Entry>, b: seq<Entry>, sha: string -> string, le: (string, string) -> bool)
    requires WellFormed(a) && WellFormed(b) && TotalOrder(le) && FixedLength(sha)
    ensures SameFiles(a, b) ==> TreeHash(a, sha, le) == TreeHash(b, sha, le)
    ensures TreeHash(a, sha, le) == TreeHash(b, sha, le) ==>
              SameFiles(a, b) || !CollisionFreeOn(sha, Hashed(a, sha, le) + Hashed(b, sha, le))
  {
    if SameFiles(a, b) {
      SameFilesSameHash(a, b, sha, le);
    } else if TreeHash(a, sha, le) == TreeHash(b, sha, le) {
      if CollisionFreeOn(sha, Hashed(a, sha, le) + Hashed(b, sha, le)) {
        SameHashSameFiles(a, b, sha, le);
      }
    }
  }

  // ---------------------------------------------------------------- what is hashed

  lemma {:induction false} JoinIsJoined(p: Path)
    requires ValidPath(p)
    ensures Join(p) == Joined(p, "/")
  {
    var n := |p| - 1;
    assert p == p[..n] + [p[n]];
    if n > 0 {
      JoinIsJoined(p[..n]);
      JoinExtend(p[..n], p[n]);
      assert Join(p[..n]) != "" by {
        assert ValidName(p[..n][0]);
      }
    }
  }

  /** Path, a zero character, the digest of the content and a line feed for each file. */
  function HashedText(rs: seq<Record>, sha: string -> string): string {
    if rs == [] then ""
    else
      var r := rs[|rs| - 1];
      HashedText(rs[..|rs| - 1], sha) + (r.path + [0 as char] + sha(r.content) + "\n")
  }

  lemma {:induction false} StreamIsHashedText(rs: seq<Record>, sha: string -> string)
    ensures Stream(rs, sha) == HashedText(rs, sha)
  {
    if rs != [] {
      var n := |rs| - 1;
      var before, r := rs[..n], rs[n];
      hide Stream;
      StreamIsHashedText(before, sha);
      StreamAppend(before, r, sha);
      assert rs == before + [r];
      assert LineThen(r, sha, "") == r.path + [0 as char] + sha(r.content) + "\n";
    } else {
      assert Stream([], sha) == "";
    }
  }

  ghost predicate IsFile(es: seq<Entry>, r: Record) {
    exists p :: Holds(es, p, r.content) && r.path == Joined(p, "/")
  }

  /** The files of a tree, each once, in the order of their paths. */
  ghost predicate ListsFiles(es: seq<Entry>, le: (string, string) -> bool, rs: seq<Record>) {
    && (forall i, j :: 0 <= i < j < |rs| ==> le(rs[i].path, rs[j].path) && rs[i].path != rs[j].path)
    && (forall i :: 0 <= i < |rs| ==> IsFile(es, rs[i]))
    && forall p, content :: Holds(es, p, content) ==> Record(Joined(p, "/"), content) in rs
  }

  /** The tree hash is the digest of one line for each file of the tree, in the order of the paths,
      and of nothing else. */
  lemma TreeHashExactly(es: seq<Entry>, sha: string -> string, le: (string, string) -> bool) returns (rs: seq<Record>)
    requires WellFormed(es) && TotalOrder(le)
    ensures ListsFiles(es, le, rs) && TreeHash(es, sha, le) == sha(HashedText(rs, sha))
  {
    hide Collect, TotalPreorder, WellFormed, Holds, HashedText, Stream;
    var files := SortedFiles(es, le);
    rs := RecordsOf(es, files);
    StreamIsHashedText(rs, sha);
    SortedOnce(es, le);
    forall i, j | 0 <= i < j < |rs| ensures le(rs[i].path, rs[j].path) && rs[i].path != rs[j].path {
      assert rs[i].path == files[i] && rs[j].path == files[j];
    }
    forall i | 0 <= i < |rs| ensures IsFile(es, rs[i]) {
      SortedMembers(es, le, files[i]);
      var p, content := CollectedFilesReadable(es, files[i]);
      JoinIsJoined(p);
    }
    forall p, content | Holds(es, p, content) ensures Record(Joined(p, "/"), content) in rs {
      HeldIsListed(es, le, p, content);
    }
  }

  lemma SortedOnce(es: seq<Entry>, le: (string, string) -> bool)
    requires WellFormed(es) && TotalOrder(le)
    ensures var files := SortedFiles(es, le); Distinct(files) && SortedBy(files, le)
  {
    hide Collect, TotalPreorder, WellFormed;
    var ca, files := Collect(es, ""), SortedFiles(es, le);
    CollectedOnce(es, []);
    SortSorts(ca, le);
    forall i, j | 0 <= i < j < |files| ensures files[i] != files[j] {
      DistinctCount(ca, files[i]);
      TwiceCounts(files, i, j);
    }
  }

  lemma TwiceCounts(s: seq<string>, i: nat, j: nat)
    requires i < j < |s|
    ensures s[i] == s[j] ==> multiset(s)[s[i]] >= 2
  {
    assert s == s[..i] + [s[i]] + s[i + 1..j] + [s[j]] + s[j + 1..];
  }

  lemma HeldIsListed(es: seq<Entry>, le: (string, string) -> bool, p: Path, content: string)
    requires WellFormed(es) && TotalOrder(le) && Holds(es, p, content)
    ensures Record(Joined(p, "/"), content) in RecordsOf(es, SortedFiles(es, le))
  {
    var files := SortedFiles(es, le);
    HeldIsCollected(es, [], p, content);
    assert [] + p == p;
    JoinIsJoined(p);
    SortedMembers(es, le, Join(p));
    var i :| 0 <= i < |files| && files[i] == Join(p);
    SplitJoin(p);
    ReadExact(es, p, content);
    assert RecordsOf(es, files)[i] == Record(Joined(p, "/"), content);
  }

  /** The same directory tree, listed in any order at every level. */
  ghost predicate SameTree(a: seq<Entry>, b: seq<Entry>)
    decreases a, 1
  {
    && (forall i :: 0 <= i < |a| ==> HasTwin(a[i], b))
    && forall j :: 0 <= j < |b| ==> IsTwin(a, b[j])
  }

  ghost predicate HasTwin(x: Entry, b: seq<Entry>)
    decreases x, 1
  {
    exists j :: 0 <= j < |b| && SameEntry(x, b[j])
  }

  ghost predicate IsTwin(a: seq<Entry>, y: Entry)
    decreases a, 0
  {
    exists i :: 0 <= i < |a| && SameEntry(a[i], y)
  }

  ghost predicate SameEntry(x: Entry, y: Entry)
    decreases x, 0
  {
    && x.name == y.name
    && if x.node.Dir? then y.node.Dir? && SameTree(x.node.entries, y.node.entries) else x.node == y.node
  }

  lemma TwinOf(a: seq<Entry>, b: seq<Entry>, i: nat) returns (j: nat)
    requires SameTree(a, b) && i < |a|
    ensures j < |b| && SameEntry(a[i], b[j])
  {
    assert HasTwin(a[i], b);
    j :| 0 <= j < |b| && SameEntry(a[i], b[j]);
  }

  lemma TwinBack(a: seq<Entry>, b: seq<Entry>, j: nat) returns (i: nat)
    requires SameTree(a, b) && j < |b|
    ensures i < |a| && SameEntry(a[i], b[j])
  {
    assert IsTwin(a, b[j]);
    i :| 0 <= i < |a| && SameEntry(a[i], b[j]);
  }

  lemma {:induction false} ListingHolds(a: seq<Entry>, b: seq<Entry>, p: Path, content: string)
    requires SameTree(a, b)
    ensures Holds(a, p, content) <==> Holds(b, p, content)
    decreases |p|
  {
    hide SameTree, Holds;
    if Holds(a, p, content) {
      var i := HolderOf(a, p, content);
      var j := TwinOf(a, b, i);
      if a[i].node.Dir? {
        ListingHolds(a[i].node.entries, b[j].node.entries, p[1..], content);
      }
      HeldAt(b, j, p, content);
    }
    if Holds(b, p, content) {
      var j := HolderOf(b, p, content);
      var i := TwinBack(a, b, j);
      if b[j].node.Dir? {
        ListingHolds(a[i].node.entries, b[j].node.entries, p[1..], content);
      }
      HeldAt(a, i, p, content);
    }
  }

  /** The order in which directories list their entries does not matter. */
  lemma ListingOrderIrrelevant(a: seq<Entry>, b: seq<Entry>, sha: string -> string, le: (string, string) -> bool)
    requires WellFormed(a) && WellFormed(b) && TotalOrder(le) && SameTree(a, b)
    ensures TreeHash(a, sha, le) == TreeHash(b, sha, le)
  {
    forall p, content ensures Holds(a, p, content) <==> Holds(b, p, content) {
      ListingHolds(a, b, p, content);
    }
    SameFilesSameHash(a, b, sha, le);
  }
}
