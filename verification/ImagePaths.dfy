// Where an image is stored and served, as text (internal/core/image.go:108-144).
module ImagePaths {
  import opened Common
  import opened IdPartition

  // ---- Text helpers ----

  /** filepath.Ext: from the last dot of the last path element, or nothing. */
  function Ext(name: string): string
    decreases |name|
  {
    if name == "" || name[|name| - 1] == '/' then ""
    else if name[|name| - 1] == '.' then "."
    else
      var shorter := Ext(name[..|name| - 1]);
      if shorter == "" then "" else shorter + [name[|name| - 1]]
  }

  predicate Free(s: string, cs: set<char>) { forall i :: 0 <= i < |s| ==> s[i] !in cs }

  /** A name with a dot has what follows its last dot as extension, the dot included; a last element without a dot
      has none. Every name is one of the two. */
  lemma {:induction false} ExtMeaning(a: string, b: string)
    requires Free(b, {'.', '/'})
    ensures Ext(a + "." + b) == "." + b
    ensures (a == "" || a[|a| - 1] == '/') ==> Ext(a + b) == ""
    decreases |b|
  {
    if b == "" {
      assert a + "." + b == a + "." && a + b == a;
    } else {
      var n := |b| - 1;
      ExtMeaning(a, b[..n]);
      assert (a + "." + b)[..|a| + 1 + n] == a + "." + b[..n];
      assert (a + b)[..|a| + n] == a + b[..n];
      assert "." + b[..n] + [b[n]] == "." + b;
    }
  }

  lemma {:induction false} EveryNameSplits(name: string) returns (a: string, b: string)
    ensures Free(b, {'.', '/'})
    ensures name == a + "." + b || (name == a + b && (a == "" || a[|a| - 1] == '/'))
    decreases |name|
  {
    if name == "" {
      return "", "";
    }
    var n := |name| - 1;
    assert name == name[..n] + [name[n]];
    if name[n] == '/' {
      assert name == name + "";
      return name, "";
    }
    if name[n] == '.' {
      assert name == name[..n] + "." + "";
      return name[..n], "";
    }
    a, b := EveryNameSplits(name[..n]);
    assert a + "." + b + [name[n]] == a + "." + (b + [name[n]]) && a + b + [name[n]] == a + (b + [name[n]]);
    b := b + [name[n]];
  }

  /** A stored file keeps the extension it was uploaded with. */
  lemma StoredExtension(prefix: string, parts: seq<string>, a: string, b: string)
    requires parts != [] && Free(b, {'.', '/'})
    ensures var path := PathIn(prefix, parts, a + "." + b);
      |path| >= |b| + 1 && path[|path| - |b| - 1..] == "." + b && Ext(path) == "." + b
  {
    ExtMeaning(a, b);
    var stem := DirIn(prefix, parts) + "/" + (parts[|parts| - 1] + "_original");
    assert PathIn(prefix, parts, a + "." + b) == stem + "." + b;
    ExtMeaning(stem, b);
  }

  function Join(parts: seq<string>): string {
    if parts == [] then "" else if |parts| == 1 then parts[0] else parts[0] + "/" + Join(parts[1..])
  }

  // ---- Paths of a partition ----

  function DirIn(prefix: string, parts: seq<string>): string
    requires parts != []
  {
    prefix + "/" + Join(parts[..|parts| - 1])
  }

  function PathIn(prefix: string, parts: seq<string>, filename: string): string
    requires parts != []
  {
    DirIn(prefix, parts) + "/" + (parts[|parts| - 1] + "_original" + Ext(filename))
  }

  lemma {:induction false} JoinLast(parts: seq<string>)
    requires |parts| >= 2
    ensures Join(parts) == Join(parts[..|parts| - 1]) + "/" + parts[|parts| - 1]
  {
    var n := |parts| - 1;
    if n > 1 {
      JoinLast(parts[1..]);
      assert parts[1..][..n - 1] == parts[..n][1..];
      assert parts[0] + "/" + (Join(parts[..n][1..]) + "/" + parts[n]) ==
             (parts[0] + "/" + Join(parts[..n][1..])) + "/" + parts[n];
    }
  }

  /** A path is the prefix, the parts with slashes between them, and a suffix from an underscore on. */
  lemma PathShape(prefix: string, parts: seq<string>, filename: string)
    requires |parts| >= 2
    ensures PathIn(prefix, parts, filename) == prefix + "/" + Join(parts) + "_original" + Ext(filename)
  {
    JoinLast(parts);
    var n := |parts| - 1;
    var a, b, c := prefix + "/", Join(parts[..n]), parts[n];
    var tail := "_original" + Ext(filename);
    assert (a + b) + "/" + (c + "_original" + Ext(filename)) == a + (b + "/" + c) + "_original" + Ext(filename);
  }

  // ---- Reading the ID back ----

  /** The digits before the first underscore. */
  function DigitsBefore(s: string): (r: string)
    ensures AllDigits(r)
  {
    if s == "" || s[0] == '_' then ""
    else (if IsDigit(s[0]) then [s[0]] else "") + DigitsBefore(s[1..])
  }

  /** Reads the ID out of a path under a known prefix. */
  function ParsePath(prefix: string, path: string): nat {
    if |path| > |prefix| then Read(DigitsBefore(path[|prefix| + 1..])) else 0
  }

  lemma {:induction false} DigitsOfDigits(d: string, rest: string)
    requires AllDigits(d)
    ensures DigitsBefore(d + rest) == d + DigitsBefore(rest)
    decreases |d|
  {
    if d == "" {
      assert d + rest == rest;
    } else {
      DigitsOfDigits(d[1..], rest);
      assert (d + rest)[1..] == d[1..] + rest;
      assert [d[0]] + (d[1..] + DigitsBefore(rest)) == d + DigitsBefore(rest);
    }
  }

  lemma {:induction false} DigitsOfJoin(parts: seq<string>, rest: string)
    requires forall i :: 0 <= i < |parts| ==> AllDigits(parts[i])
    requires rest != "" && rest[0] == '_'
    ensures DigitsBefore(Join(parts) + rest) == Concat(parts)
    decreases |parts|
  {
    if parts == [] {
      assert Join(parts) + rest == rest;
    } else if |parts| == 1 {
      DigitsOfDigits(parts[0], rest);
      assert parts[1..] == [];
    } else {
      var more := "/" + (Join(parts[1..]) + rest);
      assert Join(parts) + rest == parts[0] + more;
      DigitsOfDigits(parts[0], more);
      assert more[1..] == Join(parts[1..]) + rest;
      DigitsOfJoin(parts[1..], rest);
      assert DigitsBefore(more) == DigitsBefore(more[1..]);
    }
  }

  lemma Regroup(prefix: string, joined: string, tail: string, after: string)
    ensures prefix + "/" + joined + tail + after == prefix + "/" + (joined + (tail + after))
  {
  }

  lemma AfterPrefix(prefix: string, rest: string)
    requires rest != ""
    ensures ParsePath(prefix, prefix + "/" + rest) == Read(DigitsBefore(rest))
  {
    assert (prefix + "/" + rest)[|prefix| + 1..] == rest;
  }

  lemma TailShape(filename: string, after: string)
    ensures var t := "_original" + Ext(filename) + after; t != "" && t[0] == '_'
  {
  }

  /** The ID can be read back from the path, whatever the file name was and whatever follows the path. */
  lemma PathNamesId(prefix: string, id: nat, filename: string, after: string)
    ensures ParsePath(prefix, PathIn(prefix, Parts(id), filename) + after) == id
  {
    var parts := Parts(id);
    PartsFacts(id);
    PathShape(prefix, parts, filename);
    var tail := "_original" + Ext(filename);
    var rest := tail + after;
    TailShape(filename, after);
    assert prefix + "/" + Join(parts) + "_original" + Ext(filename) == prefix + "/" + Join(parts) + tail;
    Regroup(prefix, Join(parts), tail, after);
    AfterPrefix(prefix, Join(parts) + rest);
    DigitsOfJoin(parts, rest);
  }

  /** Under one prefix, different IDs never share a path, whatever the two file names. */
  lemma PathsDiffer(prefix: string, a: nat, b: nat, f: string, g: string)
    requires a != b
    ensures PathIn(prefix, Parts(a), f) != PathIn(prefix, Parts(b), g)
  {
    PathNamesId(prefix, a, f, "");
    PathNamesId(prefix, b, g, "");
    assert PathIn(prefix, Parts(a), f) + "" == PathIn(prefix, Parts(a), f);
    assert PathIn(prefix, Parts(b), g) + "" == PathIn(prefix, Parts(b), g);
  }

  // ---- Files are never directories ----

  predicate Plain(s: string) { forall i :: 0 <= i < |s| ==> IsDigit(s[i]) || s[i] == '/' }

  lemma {:induction false} JoinPlain(parts: seq<string>)
    requires forall i :: 0 <= i < |parts| ==> AllDigits(parts[i])
    ensures Plain(Join(parts))
  {
    if |parts| > 1 {
      JoinPlain(parts[1..]);
    }
  }

  predicate PlainAfter(n: nat, s: string) { forall i :: n <= i < |s| ==> s[i] != '_' }

  lemma DirPlain(prefix: string, parts: seq<string>)
    requires parts != [] && forall i :: 0 <= i < |parts| ==> AllDigits(parts[i])
    ensures PlainAfter(|prefix| + 1, DirIn(prefix, parts))
  {
    JoinPlain(parts[..|parts| - 1]);
  }

  lemma UnderscoreAt(prefix: string, joined: string, ext: string)
    ensures !PlainAfter(|prefix| + 1, prefix + "/" + joined + "_original" + ext)
  {
    var s := prefix + "/" + joined + "_original" + ext;
    assert s[|prefix| + 1 + |joined|] == '_';
  }

  /** The file saved for one ID is not among the directories made for any ID: neither the directory of that
      ID nor any of its ancestors. */
  lemma FileIsNoDirectory(prefix: string, a: nat, f: string, b: nat, ancestor: string)
    requires ancestor <= DirIn(prefix, Parts(b))
    ensures PathIn(prefix, Parts(a), f) != ancestor
  {
    PartsFacts(a);
    PartsFacts(b);
    PathShape(prefix, Parts(a), f);
    UnderscoreAt(prefix, Join(Parts(a)), Ext(f));
    DirPlain(prefix, Parts(b));
    assert PlainAfter(|prefix| + 1, ancestor);
  }

  // ---- The cached partition ----

  /** The partition an object answers with: the cached one if there is one. */
  function Cached(cache: seq<string>, id: GoInt): (r: Result<seq<string>, PartitionError>)
    ensures r.Ok? ==> r.value != []
  {
    if |cache| > 0 then Ok(cache)
    else if id <= 0 then Err(IdMustBePositive)
    else (PartsFacts(id); Ok(Parts(id)))
  }

  function DirOf(cache: seq<string>, id: GoInt, prefix: string): Result<string, PartitionError> {
    match Cached(cache, id)
    case Ok(parts) => Ok(DirIn(prefix, parts))
    case Err(e) => Err(e)
  }

  function PathOf(cache: seq<string>, id: GoInt, filename: string, prefix: string): Result<string, PartitionError> {
    match Cached(cache, id)
    case Ok(parts) => Ok(PathIn(prefix, parts, filename))
    case Err(e) => Err(e)
  }

  /** With a cached partition of one ID, an object that meanwhile has another ID answers with the right path
      iff the two IDs are the same. */
  lemma StaleCache(oldId: GoInt, newId: GoInt, filename: string, prefix: string)
    requires oldId > 0 && newId > 0
    ensures PathOf(Parts(oldId), newId, filename, prefix) == PathOf([], newId, filename, prefix) <==> oldId == newId
  {
    PartsFacts(oldId);
    if oldId != newId {
      PathsDiffer(prefix, oldId, newId, filename, filename);
    }
  }

  // ---- Addresses ----

  /** The address pattern filled in: what precedes the path, the path, and what follows it with the time stamp. */
  function Address(head: string, path: string, after: string): string { head + path + after }

  lemma PrefixMoves(head: string, prefix: string, parts: seq<string>, filename: string)
    requires parts != []
    ensures PathIn(head + prefix, parts, filename) == head + PathIn(prefix, parts, filename)
  {
    var a, b := Join(parts[..|parts| - 1]), parts[|parts| - 1] + "_original" + Ext(filename);
    assert (head + prefix) + "/" + a + "/" + b == head + (prefix + "/" + a + "/" + b);
  }

  /** The address served for an image names its ID, whatever the file name and whatever follows the path. */
  lemma AddressNamesId(head: string, prefix: string, id: nat, filename: string, after: string)
    ensures ParsePath(head + prefix, Address(head, PathIn(prefix, Parts(id), filename), after)) == id
  {
    PartsFacts(id);
    PrefixMoves(head, prefix, Parts(id), filename);
    PathNamesId(head + prefix, id, filename, after);
  }
}
