/** The manifest hash of a bundle of files (agenc-worker/src/manifest.rs): which text is
    hashed, and what that text determines. */
module Manifest {
  import opened Text
  import opened Sequences
  import opened Lines
  import opened Crypto
  import opened Json
  import Hex

  type File = (string, seq<byte>)

  type Entry = (string, Digest)

  // ---------------------------------------------------------------------------- sorting

  ghost predicate IsSorted(s: seq<string>) {
    forall i, j :: 0 <= i <= j < |s| ==> Le(s[i], s[j])
  }

  /** Where insertion from the end stops, starting at `j`. */
  function Slot(s: seq<string>, x: string, j: nat): (k: nat)
    requires j <= |s|
    ensures k <= j && (k > 0 ==> Le(s[k - 1], x)) && forall m :: k <= m < j ==> !Le(s[m], x)
  {
    if j == 0 || Le(s[j - 1], x) then j else Slot(s, x, j - 1)
  }

  function Insert(s: seq<string>, x: string): (t: seq<string>)
    ensures |t| == |s| + 1
  {
    var k := Slot(s, x, |s|);
    s[..k] + [x] + s[k..]
  }

  function Sorted(s: seq<string>): (t: seq<string>)
    ensures |t| == |s|
  {
    if s == [] then [] else Insert(Sorted(s[..|s| - 1]), s[|s| - 1])
  }

  lemma InsertPermutes(s: seq<string>, x: string)
    ensures multiset(Insert(s, x)) == multiset(s) + multiset{x}
  {
    var k := Slot(s, x, |s|);
    assert s == s[..k] + s[k..];
  }

  lemma InsertSorted(s: seq<string>, x: string)
    requires IsSorted(s)
    ensures IsSorted(Insert(s, x))
  {
    var k := Slot(s, x, |s|);
    forall m | 0 <= m < k ensures Le(s[m], x) {
      LeTransitive(s[m], s[k - 1], x);
    }
    forall m | k <= m < |s| ensures Le(x, s[m]) {
      LeTotal(s[m], x);
    }
    LeReflexive(x);
    var t := Insert(s, x);
    assert forall m :: 0 <= m < k ==> t[m] == s[m];
    assert forall m :: k < m < |t| ==> t[m] == s[m - 1];
  }

  lemma {:induction false} SortedIsSorted(s: seq<string>)
    ensures IsSorted(Sorted(s)) && multiset(Sorted(s)) == multiset(s)
  {
    if s != [] {
      var init, last := s[..|s| - 1], s[|s| - 1];
      SortedIsSorted(init);
      InsertSorted(Sorted(init), last);
      InsertPermutes(Sorted(init), last);
      assert s == init + [last];
    }
  }

  lemma Behead(s: seq<string>, t: seq<string>)
    requires IsSorted(s) && IsSorted(t) && multiset(s) == multiset(t) && s != [] && t != []
    ensures s[0] == t[0] && multiset(Remove(s, 0)) == multiset(Remove(t, 0))
  {
    assert s[0] in multiset(t) && t[0] in multiset(s);
    LeAntisymmetric(s[0], t[0]);
    RemoveOne(s, 0);
    RemoveOne(t, 0);
  }

  lemma TailSorted(s: seq<string>)
    requires IsSorted(s) && s != []
    ensures IsSorted(Remove(s, 0)) && s == [s[0]] + Remove(s, 0)
  {
    var t := Remove(s, 0);
    forall i, j | 0 <= i <= j < |t| ensures Le(t[i], t[j]) {
      assert t[i] == s[i + 1] && t[j] == s[j + 1];
    }
  }

  /** A multiset of lines has one sorted order. */
  lemma {:induction false} SortedUnique(s: seq<string>, t: seq<string>)
    requires IsSorted(s) && IsSorted(t) && multiset(s) == multiset(t)
    ensures s == t
  {
    assert |s| == |multiset(s)| == |t|;
    if s != [] {
      Behead(s, t);
      TailSorted(s);
      TailSorted(t);
      SortedUnique(Remove(s, 0), Remove(t, 0));
    }
  }

  lemma SortedByMultiset(s: seq<string>, t: seq<string>)
    ensures Sorted(s) == Sorted(t) <==> multiset(s) == multiset(t)
  {
    SortedIsSorted(s);
    SortedIsSorted(t);
    if multiset(s) == multiset(t) {
      SortedUnique(Sorted(s), Sorted(t));
    }
  }

  /** A sequence with `x` put in where insertion stops is the insertion. */
  lemma InsertedAt(s: seq<string>, x: string, j: nat, t: seq<string>)
    requires j <= |s| && (j > 0 ==> Le(s[j - 1], x)) && forall m :: j <= m < |s| ==> !Le(s[m], x)
    requires |t| == |s| + 1 && t[j] == x
    requires forall k :: 0 <= k < j ==> t[k] == s[k]
    requires forall k :: j < k < |t| ==> t[k] == s[k - 1]
    ensures t == Insert(s, x)
  {
    assert Slot(s, x, |s|) == j;
  }

  /** Moves element `i` down to its place among the ones before it. */
  method InsertInPlace(a: array<string>, i: nat)
    requires i < a.Length
    modifies a
    ensures a[..i + 1] == Insert(old(a[..i]), old(a[i]))
    ensures forall k :: i < k < a.Length ==> a[k] == old(a[k])
  {
    ghost var done := a[..i];
    var x, j := a[i], i;
    while j > 0 && !Le(a[j - 1], x)
      invariant j <= i && a[j] == x
      invariant forall k {:trigger a[k]} :: 0 <= k < j ==> a[k] == done[k]
      invariant forall k {:trigger a[k]} :: j < k <= i ==> a[k] == done[k - 1]
      invariant forall k :: j <= k < i ==> !Le(done[k], x)
      invariant forall k :: i < k < a.Length ==> a[k] == old(a[k])
    {
      a[j - 1], a[j] := x, a[j - 1];
      j := j - 1;
    }
    InsertedAt(done, x, j, a[..i + 1]);
  }

  /** `lines.sort()`, as insertion in place. */
  method SortLines(a: array<string>)
    modifies a
    ensures a[..] == Sorted(old(a[..]))
  {
    ghost var was := a[..];
    var i := 0;
    while i < a.Length
      invariant i <= a.Length
      invariant a[..i] == Sorted(was[..i])
      invariant forall k :: i <= k < a.Length ==> a[k] == was[k]
    {
      assert was[..i + 1][..i] == was[..i];
      InsertInPlace(a, i);
      i := i + 1;
    }
    assert was[..i] == was && a[..i] == a[..];
  }

  // ------------------------------------------------------------------ the hashed text

  function EntryOf(sha: seq<byte> -> Digest): File -> Entry {
    (file: File) => (file.0, sha(file.1))
  }

  function Entries(files: seq<File>, sha: seq<byte> -> Digest): seq<Entry> {
    Map(EntryOf(sha), files)
  }

  function Line(e: Entry): string {
    e.0 + ":" + Hex.Encode(e.1)
  }

  /** The text that is hashed. */
  function JoinedText(files: seq<File>, sha: seq<byte> -> Digest): string {
    Join(Sorted(Map(Line, Entries(files, sha))))
  }

  function HashOf(files: seq<File>, sha: seq<byte> -> Digest): string {
    Hex.Encode(sha(Utf8(JoinedText(files, sha))))
  }

  /** The line of a file: its path, a colon, and the digest of its content in hexadecimal. */
  function LineFor(sha: seq<byte> -> Digest): File -> string {
    (file: File) => file.0 + ":" + Hex.Encode(sha(file.1))
  }

  /** What is hashed are the lines of the files in the order of their bytes, with line feeds
      between them, and the hash is written in hexadecimal. */
  lemma HashMeans(files: seq<File>, sha: seq<byte> -> Digest)
    ensures exists lines ::
              && multiset(lines) == multiset(Map(LineFor(sha), files))
              && (forall i, j :: 0 <= i <= j < |lines| ==> LeBytes(Utf8(lines[i]), Utf8(lines[j])))
              && HashOf(files, sha) == Hex.Encode(sha(Utf8(Join(lines))))
  {
    var lines := Sorted(Map(Line, Entries(files, sha)));
    SortedIsSorted(Map(Line, Entries(files, sha)));
    assert Map(Line, Entries(files, sha)) == Map(LineFor(sha), files);
    forall i, j | 0 <= i <= j < |lines| ensures LeBytes(Utf8(lines[i]), Utf8(lines[j])) {
      OrderOfBytes(lines[i], lines[j]);
    }
    assert HashOf(files, sha) == Hex.Encode(sha(Utf8(Join(lines))));
  }

  /** `manifest_hash` */
  method ManifestHash(files: seq<File>, sha: seq<byte> -> Digest) returns (hash: string)
    ensures hash == HashOf(files, sha)
  {
    var lines := new string[|files|](i requires 0 <= i < |files| => Line((files[i].0, sha(files[i].1))));
    assert lines[..] == Map(Line, Entries(files, sha));
    SortLines(lines);
    hash := Hex.Encode(sha(Utf8(Join(lines[..]))));
  }

  /** The order of the files makes no difference. */
  lemma {:induction false} OrderDoesNotMatter(f: seq<File>, g: seq<File>, sha: seq<byte> -> Digest)
    requires multiset(f) == multiset(g)
    ensures JoinedText(f, sha) == JoinedText(g, sha) && HashOf(f, sha) == HashOf(g, sha)
  {
    MapPermutes(EntryOf(sha), f, g);
    MapPermutes(Line, Entries(f, sha), Entries(g, sha));
    SortedByMultiset(Map(Line, Entries(f, sha)), Map(Line, Entries(g, sha)));
  }

  /** The entry of a line: a path, a colon, and the 64 digits of a digest. */
  function ParseLine(line: string): (e: Option<Entry>) {
    var n := |line| - 65;
    if n < 0 || line[n] != ':' then None
    else
      match Hex.Decode(line[n + 1..])
      case Some(digest) => if |digest| == 32 then Some((line[..n], digest)) else None
      case None => None
  }

  lemma ParseLineIff(line: string, e: Entry)
    ensures ParseLine(line) == Some(e) <==> line == Line(e)
  {
    var n := |line| - 65;
    if line == Line(e) {
      assert line[..n] == e.0 && line[n + 1..] == Hex.Encode(e.1);
      Hex.DecodeIffEncode(line[n + 1..], e.1);
    }
    if ParseLine(line) == Some(e) {
      Hex.DecodeIffEncode(line[n + 1..], e.1);
      assert line == line[..n] + ":" + line[n + 1..];
    }
  }

  function Unline(line: string): Entry {
    match ParseLine(line)
    case Some(e) => e
    case None => ("", seq(32, _ => 0))
  }

  lemma UnlineLines(es: seq<Entry>)
    ensures Map(Unline, Map(Line, es)) == es
  {
    forall i | 0 <= i < |es| ensures Unline(Line(es[i])) == es[i] {
      ParseLineIff(Line(es[i]), es[i]);
    }
  }

  /** Different multisets of entries have different lines. */
  lemma LinesByEntries(d: seq<Entry>, e: seq<Entry>)
    ensures multiset(Map(Line, d)) == multiset(Map(Line, e)) <==> multiset(d) == multiset(e)
  {
    if multiset(d) == multiset(e) {
      MapPermutes(Line, d, e);
    }
    if multiset(Map(Line, d)) == multiset(Map(Line, e)) {
      MapPermutes(Unline, Map(Line, d), Map(Line, e));
      UnlineLines(d);
      UnlineLines(e);
    }
  }

  predicate PlainPaths(files: seq<File>) {
    forall i :: 0 <= i < |files| ==> NoNewline(files[i].0)
  }

  lemma LineNoNewline(e: Entry)
    requires NoNewline(e.0)
    ensures NoNewline(Line(e)) && Line(e) != ""
  {
    var n, hex := |e.0|, Hex.Encode(e.1);
    forall i | n < i < |Line(e)| ensures Line(e)[i] != '\n' {
      assert Line(e)[i] == hex[i - n - 1];
      assert hex[i - n - 1] in hex;
    }
  }

  lemma SortedPlain(files: seq<File>, sha: seq<byte> -> Digest)
    requires PlainPaths(files)
    ensures AllNoNewline(Sorted(Map(Line, Entries(files, sha))))
    ensures "" !in Sorted(Map(Line, Entries(files, sha)))
  {
    var lines := Map(Line, Entries(files, sha));
    SortedIsSorted(lines);
    forall line | line in Sorted(lines) ensures NoNewline(line) && line != "" {
      assert line in multiset(Sorted(lines));
      var i :| 0 <= i < |lines| && lines[i] == line;
      LineNoNewline(Entries(files, sha)[i]);
    }
  }

  /** Lines that are not empty can be told apart from no lines at all. */
  lemma JoinInjective(s: seq<string>, t: seq<string>)
    requires AllNoNewline(s) && AllNoNewline(t) && "" !in s && "" !in t && Join(s) == Join(t)
    ensures s == t
  {
    if s != [] { SplitJoin(s); }
    if t != [] { SplitJoin(t); }
    if s == [] && t != [] { NoNewlineSplit(""); }
    if t == [] && s != [] { NoNewlineSplit(""); }
  }

  /** The hashed text is a canonical form of the bundle: for paths without line feeds, two
      bundles have the same text exactly when they have the same paths with the same
      content digests, each the same number of times. */
  lemma {:induction false} TextIsCanonical(f: seq<File>, g: seq<File>, sha: seq<byte> -> Digest)
    requires PlainPaths(f) && PlainPaths(g)
    ensures JoinedText(f, sha) == JoinedText(g, sha) <==> multiset(Entries(f, sha)) == multiset(Entries(g, sha))
  {
    var s, t := Map(Line, Entries(f, sha)), Map(Line, Entries(g, sha));
    LinesByEntries(Entries(f, sha), Entries(g, sha));
    SortedByMultiset(s, t);
    if JoinedText(f, sha) == JoinedText(g, sha) {
      SortedPlain(f, sha);
      SortedPlain(g, sha);
      JoinInjective(Sorted(s), Sorted(t));
    }
  }

  // ------------------------------------------------------------------------- the reader

  function ReadLines(ls: seq<string>): Option<seq<Entry>> {
    if ls == [] then Some([])
    else
      var e, es := ParseLine(ls[0]), ReadLines(ls[1..]);
      if e.Some? && es.Some? then Some([e.value] + es.value) else None
  }

  lemma MapCons(e: Entry, es: seq<Entry>, line: string, ls: seq<string>)
    ensures [line] + ls == Map(Line, [e] + es) <==> line == Line(e) && ls == Map(Line, es)
  {
    var mapped := Map(Line, [e] + es);
    assert mapped[0] == Line(e) && mapped[1..] == Map(Line, es);
    assert ([line] + ls)[0] == line && ([line] + ls)[1..] == ls;
  }

  lemma {:induction false} ReadLinesIff(ls: seq<string>, es: seq<Entry>)
    ensures ReadLines(ls) == Some(es) <==> ls == Map(Line, es)
  {
    if ls != [] && es != [] {
      var e, rest := es[0], es[1..];
      assert ls == [ls[0]] + ls[1..] && es == [e] + rest;
      ParseLineIff(ls[0], e);
      ReadLinesIff(ls[1..], rest);
      MapCons(e, rest, ls[0], ls[1..]);
    }
  }

  /** Reads a manifest text line by line. */
  function ReadManifest(text: string): Option<seq<Entry>> {
    if text == "" then Some([]) else ReadLines(Split(text))
  }

  lemma ReadPlain(f: seq<File>, sha: seq<byte> -> Digest)
    requires PlainPaths(f)
    ensures var read := ReadManifest(JoinedText(f, sha));
            read.Some? && Map(Line, read.value) == Sorted(Map(Line, Entries(f, sha)))
  {
    var lines := Map(Line, Entries(f, sha));
    var es := Map(Unline, Sorted(lines));
    SortedPlain(f, sha);
    SortedIsSorted(lines);
    if f != [] {
      SplitJoin(Sorted(lines));
      NoNewlineSplit("");
      forall i | 0 <= i < |lines| ensures Line(Unline(Sorted(lines)[i])) == Sorted(lines)[i] {
        assert Sorted(lines)[i] in multiset(Sorted(lines));
        var j :| 0 <= j < |lines| && lines[j] == Sorted(lines)[i];
        ParseLineIff(lines[j], Entries(f, sha)[j]);
      }
      assert Map(Line, es) == Sorted(lines);
      ReadLinesIff(Sorted(lines), es);
    }
  }

  lemma ReadLinesPlain(ls: seq<string>, f: seq<File>, es: seq<Entry>, sha: seq<byte> -> Digest)
    requires AllNoNewline(ls) && ls == Map(Line, es) && multiset(es) == multiset(Entries(f, sha))
    ensures PlainPaths(f)
  {
    forall i | 0 <= i < |f| ensures NoNewline(f[i].0) {
      assert Entries(f, sha)[i] in multiset(es);
      var j :| 0 <= j < |es| && es[j] == Entries(f, sha)[i];
      assert forall k :: 0 <= k < |f[i].0| ==> ls[j][k] == f[i].0[k];
    }
  }

  /** The text of a bundle gives its entries back, in the order of their lines, if and only
      if no path has a line feed. */
  lemma ReadManifestIff(f: seq<File>, sha: seq<byte> -> Digest)
    ensures var read := ReadManifest(JoinedText(f, sha));
            read.Some? && multiset(read.value) == multiset(Entries(f, sha)) <==> PlainPaths(f)
  {
    var text, read := JoinedText(f, sha), ReadManifest(JoinedText(f, sha));
    if PlainPaths(f) {
      ReadPlain(f, sha);
      SortedIsSorted(Map(Line, Entries(f, sha)));
      LinesByEntries(read.value, Entries(f, sha));
    }
    if read.Some? && multiset(read.value) == multiset(Entries(f, sha)) {
      if text == "" {
        assert |multiset(Entries(f, sha))| == 0;
      } else {
        ReadLinesIff(Split(text), read.value);
        SplitNoNewline(text);
        ReadLinesPlain(Split(text), f, read.value, sha);
      }
    }
  }

  lemma JoinedOne(file: File, sha: seq<byte> -> Digest)
    ensures JoinedText([file], sha) == Line((file.0, sha(file.1)))
  {
    var line := Line((file.0, sha(file.1)));
    assert Map(Line, Entries([file], sha)) == [line];
    assert Sorted([line]) == [line];
  }

  lemma JoinedTwo(f: File, g: File, sha: seq<byte> -> Digest)
    requires Le(Line((f.0, sha(f.1))), Line((g.0, sha(g.1))))
    ensures JoinedText([f, g], sha) == Line((f.0, sha(f.1))) + "\n" + Line((g.0, sha(g.1)))
  {
    var a, b := Line((f.0, sha(f.1))), Line((g.0, sha(g.1)));
    assert Map(Line, Entries([f, g], sha)) == [a, b];
    assert [a, b][..1] == [a] && Sorted([a]) == [a];
    assert Slot([a], b, 1) == 1;
    assert Sorted([a, b]) == [a, b];
    assert [a, b][1..] == [b] && Join([b]) == b;
    assert Join([a, b]) == a + "\n" + b;
  }

  /** With a line feed in a path this fails: one file can pass for two, whatever the hash
      function and the contents. */
  lemma LineFeedCollision(x: seq<byte>, y: seq<byte>, sha: seq<byte> -> Digest)
    ensures JoinedText([("a", x), ("b", y)], sha) == JoinedText([("a:" + Hex.Encode(sha(x)) + "\nb", y)], sha)
  {
    JoinedTwo(("a", x), ("b", y), sha);
    JoinedOne(("a:" + Hex.Encode(sha(x)) + "\nb", y), sha);
  }

  // -------------------------------------------------------------- bundles in JSON values

  /** The bytes of one file: those of the string, or of the printed value. */
  function ContentOf(v: Value, show: Value -> string): seq<byte> {
    Utf8(if v.Str? then v.s else show(v))
  }

  function FileOf(m: map<string, Value>, show: Value -> string): string -> File {
    (key: string) => (key, if key in m then ContentOf(m[key], show) else [])
  }

  /** The entries of an object in any order; nothing for any other value. */
  ghost predicate Bundles(files: Value, show: Value -> string, bundle: seq<File>) {
    if !files.Obj? then bundle == []
    else exists keys :: multiset(keys) == multiset(files.fields.Keys) && bundle == Map(FileOf(files.fields, show), keys)
  }

  /** `files_from_json` */
  method FilesFromJson(files: Value, show: Value -> string) returns (bundle: seq<File>)
    ensures Bundles(files, show, bundle)
  {
    bundle := [];
    if !files.Obj? {
      return;
    }
    var todo := files.fields.Keys;
    ghost var keys: seq<string> := [];
    while todo != {}
      invariant todo <= files.fields.Keys
      invariant multiset(keys) + multiset(todo) == multiset(files.fields.Keys)
      invariant bundle == Map(FileOf(files.fields, show), keys)
      decreases |todo|
    {
      var key :| key in todo;
      bundle := bundle + [(key, ContentOf(files.fields[key], show))];
      keys := keys + [key];
      todo := todo - {key};
    }
  }

  /** A bundle has every key of the object once, with the bytes of the string under it, or of
      the printed value if it is no string. */
  lemma BundleMeans(files: Value, show: Value -> string, bundle: seq<File>)
    requires Bundles(files, show, bundle)
    ensures !files.Obj? ==> bundle == []
    ensures files.Obj? ==>
              && |bundle| == |files.fields|
              && (forall i, j :: 0 <= i < j < |bundle| ==> bundle[i].0 != bundle[j].0)
              && (forall i :: 0 <= i < |bundle| ==>
                    && bundle[i].0 in files.fields
                    && bundle[i].1 == (match files.fields[bundle[i].0] case Str(s) => Utf8(s) case v => Utf8(show(v))))
  {
    if files.Obj? {
      var m := files.fields;
      var keys :| multiset(keys) == multiset(m.Keys) && bundle == Map(FileOf(m, show), keys);
      assert |keys| == |multiset(keys)| == |m.Keys|;
      forall i, j | 0 <= i < j < |keys| ensures keys[i] != keys[j] {
        Twice(keys, i, j);
        assert multiset(m.Keys)[keys[i]] <= 1;
      }
      forall i | 0 <= i < |keys| ensures keys[i] in m {
        assert keys[i] in multiset(keys);
      }
    }
  }

  lemma Twice(keys: seq<string>, i: nat, j: nat)
    requires i < j < |keys|
    ensures keys[i] == keys[j] ==> multiset(keys)[keys[i]] >= 2
  {
    assert keys == keys[..j] + [keys[j]] + keys[j + 1..];
    assert keys[..j][i] == keys[i] && keys[i] in multiset(keys[..j]);
  }

  /** The hash of a JSON value does not depend on the order in which its entries come. */
  lemma {:induction false} BundleOrderDoesNotMatter(files: Value, show: Value -> string, f: seq<File>, g: seq<File>,
      sha: seq<byte> -> Digest)
    requires Bundles(files, show, f) && Bundles(files, show, g)
    ensures JoinedText(f, sha) == JoinedText(g, sha) && HashOf(f, sha) == HashOf(g, sha)
  {
    if files.Obj? {
      var fn := FileOf(files.fields, show);
      var ks :| multiset(ks) == multiset(files.fields.Keys) && f == Map(fn, ks);
      var ls :| multiset(ls) == multiset(files.fields.Keys) && g == Map(fn, ls);
      MapPermutes(fn, ks, ls);
      OrderDoesNotMatter(f, g, sha);
    }
  }

  /** Do two objects have the same keys, with contents of the same digest? */
  ghost predicate SameContents(m: map<string, Value>, n: map<string, Value>, show: Value -> string,
      sha: seq<byte> -> Digest)
  {
    m.Keys == n.Keys && forall key :: key in m ==> sha(ContentOf(m[key], show)) == sha(ContentOf(n[key], show))
  }

  lemma SameContentsSameEntries(m: map<string, Value>, n: map<string, Value>, show: Value -> string,
      sha: seq<byte> -> Digest, ks: seq<string>, ls: seq<string>)
    requires multiset(ks) == multiset(m.Keys) && multiset(ls) == multiset(n.Keys) && SameContents(m, n, show, sha)
    ensures multiset(Entries(Map(FileOf(m, show), ks), sha)) == multiset(Entries(Map(FileOf(n, show), ls), sha))
  {
    forall i | 0 <= i < |ks| ensures EntryOf(sha)(FileOf(m, show)(ks[i])) == EntryOf(sha)(FileOf(n, show)(ks[i])) {
      assert ks[i] in multiset(ks);
    }
    assert Entries(Map(FileOf(m, show), ks), sha) == Entries(Map(FileOf(n, show), ks), sha);
    MapPermutes(FileOf(n, show), ks, ls);
    MapPermutes(EntryOf(sha), Map(FileOf(n, show), ks), Map(FileOf(n, show), ls));
  }

  lemma EntriesKeep(m: map<string, Value>, n: map<string, Value>, show: Value -> string, sha: seq<byte> -> Digest,
      ks: seq<string>, ls: seq<string>, key: string)
    requires multiset(ks) == multiset(m.Keys) && multiset(ls) == multiset(n.Keys) && key in m
    requires multiset(Entries(Map(FileOf(m, show), ks), sha)) == multiset(Entries(Map(FileOf(n, show), ls), sha))
    ensures key in n && sha(ContentOf(m[key], show)) == sha(ContentOf(n[key], show))
  {
    var es, ds := Entries(Map(FileOf(m, show), ks), sha), Entries(Map(FileOf(n, show), ls), sha);
    assert key in multiset(ks);
    var i :| 0 <= i < |ks| && ks[i] == key;
    assert es[i] in multiset(ds);
    var j :| 0 <= j < |ds| && ds[j] == es[i];
    assert ls[j] in multiset(ls);
  }

  lemma EntriesGiveContents(m: map<string, Value>, n: map<string, Value>, show: Value -> string,
      sha: seq<byte> -> Digest, ks: seq<string>, ls: seq<string>)
    requires multiset(ks) == multiset(m.Keys) && multiset(ls) == multiset(n.Keys)
    requires multiset(Entries(Map(FileOf(m, show), ks), sha)) == multiset(Entries(Map(FileOf(n, show), ls), sha))
    ensures SameContents(m, n, show, sha)
  {
    forall key | key in m ensures key in n && sha(ContentOf(m[key], show)) == sha(ContentOf(n[key], show)) {
      EntriesKeep(m, n, show, sha, ks, ls, key);
    }
    forall key | key in n ensures key in m {
      EntriesKeep(n, m, show, sha, ls, ks, key);
    }
  }

  ghost predicate PlainKeys(m: map<string, Value>) {
    forall key :: key in m ==> NoNewline(key)
  }

  lemma PlainBundle(m: map<string, Value>, show: Value -> string, f: seq<File>) returns (keys: seq<string>)
    requires PlainKeys(m) && Bundles(Obj(m), show, f)
    ensures multiset(keys) == multiset(m.Keys) && f == Map(FileOf(m, show), keys) && PlainPaths(f)
  {
    keys :| multiset(keys) == multiset(m.Keys) && f == Map(FileOf(m, show), keys);
    forall i | 0 <= i < |f| ensures NoNewline(f[i].0) {
      assert keys[i] in multiset(keys);
    }
  }

  /** End to end: two objects whose keys have no line feeds give the same text exactly when
      they have the same keys with contents of the same digest. */
  lemma {:induction false} JsonIsCanonical(m: map<string, Value>, n: map<string, Value>, show: Value -> string,
      sha: seq<byte> -> Digest, f: seq<File>, g: seq<File>)
    requires PlainKeys(m) && PlainKeys(n) && Bundles(Obj(m), show, f) && Bundles(Obj(n), show, g)
    ensures JoinedText(f, sha) == JoinedText(g, sha) <==> SameContents(m, n, show, sha)
  {
    var ks := PlainBundle(m, show, f);
    var ls := PlainBundle(n, show, g);
    TextIsCanonical(f, g, sha);
    if SameContents(m, n, show, sha) {
      SameContentsSameEntries(m, n, show, sha, ks, ls);
    } else if JoinedText(f, sha) == JoinedText(g, sha) {
      EntriesGiveContents(m, n, show, sha, ks, ls);
    }
  }
}
