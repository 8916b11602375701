/**
 * Paths inside an AnnData container (AnnDataPath.java): the root "/", or a field
 * followed by a list of keys, printed and parsed as "/field/key/...".
 */
module Paths {
  import opened Wrappers
  import opened Fields

  /** ROOT, or a field with its keys. Java's root object is a subclass with no field and no keys. */
  datatype AnnDataPath = Root | FieldPath(field: Field, keys: seq<string>)

  /**
   * The exceptions of this file: IllegalArgumentException for a malformed path or an
   * unknown field name, UnsupportedOperationException for the operations ROOT refuses.
   */
  datatype PathError = InvalidPath | FieldNotFound(name: string) | RootUnsupported

  // ---------------------------------------------------------------------------
  // Java string operations
  // ---------------------------------------------------------------------------

  /** String.join("/", parts). */
  function Join(parts: seq<string>): string
    decreases |parts|
  {
    if |parts| == 0 then ""
    else if |parts| == 1 then parts[0]
    else parts[0] + "/" + Join(parts[1..])
  }

  /** The pieces of `s` between separators, empty pieces included: one more than there are separators. */
  function SplitAll(s: string): (parts: seq<string>)
    ensures |parts| >= 1
    ensures forall k :: 0 <= k < |parts| ==> '/' !in parts[k]
    decreases |s|
  {
    if |s| == 0 then [""]
    else
      var rest := SplitAll(s[1..]);
      if s[0] == '/' then [""] + rest
      else [[s[0]] + rest[0]] + rest[1..]
  }

  /** Drop the empty strings at the end of a split. */
  function DropTrailingEmpty(parts: seq<string>): (r: seq<string>)
    ensures |r| <= |parts| && r == parts[..|r|]
    ensures |r| > 0 ==> r[|r| - 1] != ""
    ensures forall k :: |r| <= k < |parts| ==> parts[k] == ""
    decreases |parts|
  {
    if |parts| > 0 && parts[|parts| - 1] == "" then DropTrailingEmpty(parts[..|parts| - 1])
    else parts
  }

  /**
   * String.split("/"): a string without a separator is returned whole, even when
   * empty; otherwise the pieces between separators, with trailing empty pieces removed.
   */
  function JavaSplit(s: string): (r: seq<string>)
    ensures '/' !in s ==> r == [s]
    ensures forall k :: 0 <= k < |r| ==> '/' !in r[k]
    ensures '/' in s && |r| > 0 ==> r[|r| - 1] != ""
  {
    if '/' !in s then [s] else DropTrailingEmpty(SplitAll(s))
  }

  function TrimStart(s: string): (t: string)
    ensures |t| <= |s| && t == s[|s| - |t|..]
    ensures |t| > 0 ==> t[0] > ' '
    ensures forall k :: 0 <= k < |s| - |t| ==> s[k] <= ' '
    decreases |s|
  {
    if |s| > 0 && s[0] <= ' ' then TrimStart(s[1..]) else s
  }

  function TrimEnd(s: string): (t: string)
    ensures |t| <= |s| && t == s[..|t|]
    ensures |t| > 0 ==> t[|t| - 1] > ' '
    ensures forall k :: |t| <= k < |s| ==> s[k] <= ' '
    decreases |s|
  {
    if |s| > 0 && s[|s| - 1] <= ' ' then TrimEnd(s[..|s| - 1]) else s
  }

  /** String.trim(): remove every character up to U+0020 from both ends. */
  function Trim(s: string): (t: string)
    ensures |t| > 0 ==> t[0] > ' ' && t[|t| - 1] > ' '
    ensures exists a :: TrimmedAt(s, t, a)
  {
    var u := TrimStart(s);
    TrimmedByParts(s, u, TrimEnd(u));
    TrimEnd(u)
  }

  /**
   * A tail u of s cut after characters up to U+0020, then a head t of u cut before such
   * characters, is the middle of s from index |s| - |u|.
   */
  lemma TrimmedByParts(s: string, u: string, t: string)
    requires |u| <= |s| && u == s[|s| - |u|..] && forall k :: 0 <= k < |s| - |u| ==> s[k] <= ' '
    requires |t| <= |u| && t == u[..|t|] && forall k :: |t| <= k < |u| ==> u[k] <= ' '
    ensures TrimmedAt(s, t, |s| - |u|)
  {
    var a := |s| - |u|;
    forall k | a + |t| <= k < |s|
      ensures s[k] <= ' '
    {
      assert s[k] == u[k - a];
    }
  }

  /** `t` is `s` from index a on, with only characters up to U+0020 cut off at either end. */
  predicate TrimmedAt(s: string, t: string, a: int)
  {
    && 0 <= a <= |s| - |t| && t == s[a..a + |t|]
    && (forall k :: 0 <= k < a ==> s[k] <= ' ')
    && (forall k :: a + |t| <= k < |s| ==> s[k] <= ' ')
  }

  // ---------------------------------------------------------------------------
  // Paths
  // ---------------------------------------------------------------------------

  /** getField(): the field, UnsupportedOperationException for ROOT. */
  function GetField(p: AnnDataPath): (r: Result<Field, PathError>)
    ensures r.Ok? <==> p.FieldPath?
    ensures r.Ok? ==> r.value == p.field
  {
    match p
    case Root => Err(RootUnsupported)
    case FieldPath(f, _) => Ok(f)
  }

  /** keysAsString(): the keys joined by "/", UnsupportedOperationException for ROOT. */
  function KeysAsString(p: AnnDataPath): (r: Result<string, PathError>)
    ensures r.Ok? <==> p.FieldPath?
    ensures r.Ok? && p.keys == [] ==> r.value == ""
  {
    match p
    case Root => Err(RootUnsupported)
    case FieldPath(_, keys) => Ok(Join(keys))
  }

  /** The keys of a path, when free of "/", are read back by splitting keysAsString() on "/". */
  lemma {:induction false} KeysRoundTrip(p: AnnDataPath)
    requires p.FieldPath? && |p.keys| >= 1 && forall i :: 0 <= i < |p.keys| ==> '/' !in p.keys[i]
    ensures SplitAll(KeysAsString(p).value) == p.keys
  {
    JoinSplit(p.keys);
  }

  /** toString(): "/" for ROOT, "/field" without keys, "/field/k1/.../kn" with keys. */
  function ToString(p: AnnDataPath): (s: string)
    ensures |s| >= 1 && s[0] == '/'
    ensures p.FieldPath? ==> |s| >= 2 && s[1..] == Join([GetPath(p.field)] + p.keys)
  {
    match p
    case Root => "/"
    case FieldPath(f, keys) =>
      assert Join([GetPath(f)] + keys) == if |keys| == 0 then GetPath(f) else GetPath(f) + "/" + Join(keys) by {
        assert ([GetPath(f)] + keys)[1..] == keys;
      }
      if |keys| == 0 then "/" + Fields.ToString(f)
      else "/" + Fields.ToString(f) + "/" + Join(keys)
  }

  /** equals: ROOT equals only ROOT; other paths are equal when field and keys are. */
  function Equals(p: AnnDataPath, q: AnnDataPath): (r: bool)
    ensures r <==> p == q
  {
    match (p, q)
    case (Root, Root) => true
    case (FieldPath(f, ks), FieldPath(g, ls)) => f == g && ks == ls
    case _ => false
  }

  /** getParentPath(): drop the last key; a bare field's parent is ROOT; ROOT has none. */
  function GetParentPath(p: AnnDataPath): (r: Result<AnnDataPath, PathError>)
    ensures r.Err? <==> p == Root
    ensures p.FieldPath? && p.keys == [] ==> r == Ok(Root)
    ensures p.FieldPath? && p.keys != [] ==>
      r.Ok? && r.value.FieldPath? && r.value.field == p.field && r.value.keys + [p.keys[|p.keys| - 1]] == p.keys
  {
    match p
    case Root => Err(RootUnsupported)
    case FieldPath(f, keys) =>
      if |keys| == 0 then Ok(Root) else Ok(FieldPath(f, keys[..|keys| - 1]))
  }

  /** getLeaf(): "/" for ROOT, the last key, or the field's name when there are no keys. */
  function GetLeaf(p: AnnDataPath): (leaf: string)
    ensures p == Root ==> leaf == "/"
    ensures p.FieldPath? && p.keys == [] ==> leaf == GetPath(p.field)
    ensures p.FieldPath? && p.keys != [] ==> leaf == p.keys[|p.keys| - 1]
  {
    match p
    case Root => "/"
    case FieldPath(f, keys) => if |keys| == 0 then Fields.ToString(f) else keys[|keys| - 1]
  }

  /** append(keys): a new path with the keys added at the end; ROOT refuses. */
  function Append(p: AnnDataPath, additionalKeys: seq<string>): (r: Result<AnnDataPath, PathError>)
    ensures r.Err? <==> p == Root
    ensures r.Ok? ==> r.value.FieldPath? && r.value.field == p.field && r.value.keys == p.keys + additionalKeys
  {
    match p
    case Root => Err(RootUnsupported)
    case FieldPath(f, keys) => Ok(FieldPath(f, keys + additionalKeys))
  }

  /** Appending one key and taking the parent gives back the path; the key becomes the leaf. */
  lemma {:induction false} AppendThenParent(p: AnnDataPath, key: string)
    requires p.FieldPath?
    ensures Append(p, [key]).Ok?
    ensures GetParentPath(Append(p, [key]).value) == Ok(p)
    ensures GetLeaf(Append(p, [key]).value) == key
  {
    var q := Append(p, [key]).value;
    assert q.keys[..|q.keys| - 1] == p.keys;
  }

  /** Appending in two steps is appending the concatenated keys. */
  lemma {:induction false} AppendAssociative(p: AnnDataPath, ks: seq<string>, ls: seq<string>)
    requires p.FieldPath?
    ensures Append(Append(p, ks).value, ls) == Append(p, ks + ls)
  {
    assert p.keys + ks + ls == p.keys + (ks + ls);
  }

  /** withoutLeadingRoot: drop one leading "/". */
  function WithoutLeadingRoot(path: string): (r: string)
    ensures |path| >= 1 && path[0] == '/' ==> r == path[1..]
    ensures !(|path| >= 1 && path[0] == '/') ==> r == path
  {
    if |path| >= 1 && path[0] == '/' then path[1..] else path
  }

  /**
   * fromString: IllegalArgumentException for null or "", ROOT when the trimmed input
   * is "/", otherwise split what follows the leading "/" on "/": the first piece must
   * name a field and the remaining pieces are the keys.
   */
  function FromString(path: Option<string>): (r: Result<AnnDataPath, PathError>)
    ensures path.None? || path.value == "" ==> r == Err(InvalidPath)
    ensures r == Ok(Root) <==> path.Some? && path.value != "" && Trim(path.value) == "/"
    ensures r.Ok? && r.value.FieldPath? ==>
      JavaSplit(WithoutLeadingRoot(path.value)) == [GetPath(r.value.field)] + r.value.keys
    ensures r.Err? && path.Some? && path.value != "" ==>
      var parts := JavaSplit(WithoutLeadingRoot(path.value));
      Trim(path.value) != "/" && (parts == [] || forall f :: GetPath(f) != parts[0])
  {
    if path.None? || |path.value| == 0 then Err(InvalidPath)
    else if Trim(path.value) == "/" then Ok(Root)
    else
      var r := FieldPathFromParts(JavaSplit(WithoutLeadingRoot(path.value)));
      assert r != Ok(Root);
      r
  }

  /**
   * The String overload of the checkers' check: parse the path with fromString, then
   * check the parsed path; a parse error is reported through `malformed`.
   */
  function CheckParsed<E>(path: Option<string>, malformed: PathError -> E, check: AnnDataPath -> Outcome<E>)
    : (r: Outcome<E>)
    ensures FromString(path).Err? ==> r == Fail(malformed(FromString(path).error))
    ensures FromString(path).Ok? ==> r == check(FromString(path).value)
  {
    match FromString(path)
    case Err(e) => Fail(malformed(e))
    case Ok(p) => check(p)
  }

  /** The field path named by the pieces of a split: the field, then the keys. */
  function FieldPathFromParts(parts: seq<string>): (r: Result<AnnDataPath, PathError>)
    ensures r.Ok? <==> parts != [] && exists f :: GetPath(f) == parts[0]
    ensures r.Ok? ==> r.value.FieldPath? && parts == [GetPath(r.value.field)] + r.value.keys
  {
    if |parts| < 1 then Err(InvalidPath)
    else
      match Fields.FromString(parts[0])
      case Err(_) => Err(FieldNotFound(parts[0]))
      case Ok(f) =>
        assert GetPath(f) == parts[0] && parts == [parts[0]] + parts[1..];
        Ok(FieldPath(f, parts[1..]))
  }

  // ---------------------------------------------------------------------------
  // Round trips
  // ---------------------------------------------------------------------------

  /** A piece without separators splits to itself. */
  lemma {:induction false} SplitWithoutSeparator(s: string)
    requires '/' !in s
    ensures SplitAll(s) == [s]
    decreases |s|
  {
    if |s| > 0 {
      SplitWithoutSeparator(s[1..]);
      assert [s[0]] + s[1..] == s;
    }
  }

  /** Splitting a + "/" + b, where a has no separator, yields a and then the pieces of b. */
  lemma {:induction false} SplitAfterPiece(a: string, b: string)
    requires '/' !in a
    ensures SplitAll(a + "/" + b) == [a] + SplitAll(b)
    decreases |a|
  {
    var s := a + "/" + b;
    if |a| == 0 {
      assert s[1..] == b;
    } else {
      assert s[1..] == a[1..] + "/" + b;
      SplitAfterPiece(a[1..], b);
      assert [a[0]] + a[1..] == a;
    }
  }

  /** Joining pieces without separators and splitting again gives the pieces back. */
  lemma {:induction false} JoinSplit(parts: seq<string>)
    requires |parts| >= 1 && forall i :: 0 <= i < |parts| ==> '/' !in parts[i]
    ensures SplitAll(Join(parts)) == parts
    decreases |parts|
  {
    if |parts| == 1 {
      SplitWithoutSeparator(parts[0]);
    } else {
      JoinSplit(parts[1..]);
      SplitAfterPiece(parts[0], Join(parts[1..]));
      assert [parts[0]] + parts[1..] == parts;
    }
  }

  /** Splitting and joining again gives the string back. */
  lemma {:induction false} SplitJoin(s: string)
    ensures Join(SplitAll(s)) == s
    decreases |s|
  {
    if |s| > 0 {
      SplitJoin(s[1..]);
      var rest := SplitAll(s[1..]);
      if s[0] == '/' {
        assert ([""] + rest)[1..] == rest;
        assert s == "/" + s[1..];
      } else {
        var parts := [[s[0]] + rest[0]] + rest[1..];
        assert parts[1..] == rest[1..];
        if |rest| >= 2 {
          assert Join(rest) == rest[0] + "/" + Join(rest[1..]);
        }
        assert s == [s[0]] + s[1..];
      }
    }
  }

  /** The last piece of a string that does not end with a separator is not empty. */
  lemma {:induction false} SplitLastPiece(s: string)
    requires |s| >= 1 && s[|s| - 1] != '/'
    ensures SplitAll(s)[|SplitAll(s)| - 1] != ""
    decreases |s|
  {
    if |s| >= 2 {
      assert s[1..][|s[1..]| - 1] == s[|s| - 1];
      SplitLastPiece(s[1..]);
    }
  }

  /** A separator inside a string shows up in its join. */
  lemma {:induction false} JoinHasSeparator(parts: seq<string>)
    requires |parts| >= 2
    ensures '/' in Join(parts)
  {
    assert Join(parts)[|parts[0]|] == '/';
  }

  /** Trimming keeps a string whose first two characters are visible at least two characters long. */
  lemma {:induction false} TrimKeepsVisible(s: string)
    requires |s| >= 2 && s[0] > ' ' && s[1] > ' '
    ensures |Trim(s)| >= 2
  {
    assert TrimStart(s) == s;
    TrimEndKeeps(s, 1);
  }

  lemma {:induction false} TrimEndKeeps(s: string, i: int)
    requires 0 <= i < |s| && s[i] > ' '
    ensures |TrimEnd(s)| > i
    decreases |s|
  {
    if s[|s| - 1] <= ' ' {
      TrimEndKeeps(s[..|s| - 1], i);
    }
  }

  /** The paths toString prints unambiguously: keys free of "/" and a nonempty last key. */
  predicate Printable(p: AnnDataPath)
  {
    p.FieldPath? ==>
      (forall i :: 0 <= i < |p.keys| ==> '/' !in p.keys[i]) && (|p.keys| > 0 ==> p.keys[|p.keys| - 1] != "")
  }

  /** A join starts with the first piece. */
  lemma {:induction false} JoinStartsWithFirst(parts: seq<string>)
    requires |parts| >= 1 && |parts[0]| >= 1
    ensures |Join(parts)| >= 1 && Join(parts)[0] == parts[0][0]
  {
  }

  /** The pieces of a printed field path split back into the field path and the keys. */
  lemma {:induction false} PrintedPiecesSplit(p: AnnDataPath)
    requires p.FieldPath? && Printable(p)
    ensures JavaSplit(Join([GetPath(p.field)] + p.keys)) == [GetPath(p.field)] + p.keys
  {
    var parts := [GetPath(p.field)] + p.keys;
    BasePathsDistinct(p.field);
    assert forall i :: 0 <= i < |parts| ==> '/' !in parts[i];
    if |p.keys| == 0 {
      assert parts == [GetPath(p.field)];
    } else {
      JoinHasSeparator(parts);
      JoinSplit(parts);
    }
  }

  /** The pieces naming a field and its keys make that field path. */
  lemma {:induction false} PiecesMakeFieldPath(f: Field, keys: seq<string>)
    ensures FieldPathFromParts([GetPath(f)] + keys) == Ok(FieldPath(f, keys))
  {
    var parts := [GetPath(f)] + keys;
    Fields.FromStringRoundTrip(f);
    assert parts[0] == Fields.ToString(f) && parts[1..] == keys;
  }

  /** Parsing a printed path gives the path back. */
  lemma {:induction false} ParsePrinted(p: AnnDataPath)
    requires Printable(p)
    ensures FromString(Some(ToString(p))) == Ok(p)
  {
    if p.FieldPath? {
      var s := ToString(p);
      var parts := [GetPath(p.field)] + p.keys;
      assert s[1..] == Join(parts);
      JoinStartsWithFirst(parts);
      TrimKeepsVisible(s);
      assert WithoutLeadingRoot(s) == Join(parts);
      PrintedPiecesSplit(p);
      PiecesMakeFieldPath(p.field, p.keys);
      assert FromString(Some(s)) == FieldPathFromParts(parts);
    }
  }

  /** Joining the pieces of a Java split gives the string back, unless it ends with a separator. */
  lemma {:induction false} JavaSplitJoin(t: string)
    requires |t| == 0 || t[|t| - 1] != '/'
    ensures Join(JavaSplit(t)) == t
  {
    if '/' in t {
      SplitLastPiece(t);
      SplitJoin(t);
    }
  }

  /** Printing a parsed path gives the string back, when it starts with "/" and does not end with one. */
  lemma {:induction false} PrintParsed(s: string)
    requires |s| >= 1 && s[0] == '/' && s[|s| - 1] != '/'
    requires FromString(Some(s)).Ok? && FromString(Some(s)).value.FieldPath?
    ensures ToString(FromString(Some(s)).value) == s
  {
    var p := FromString(Some(s)).value;
    var t := s[1..];
    assert WithoutLeadingRoot(s) == t;
    assert JavaSplit(t) == [GetPath(p.field)] + p.keys;
    assert |t| == 0 || t[|t| - 1] == s[|s| - 1];
    JavaSplitJoin(t);
    var printed := ToString(p);
    assert printed[1..] == t;
    assert printed == [printed[0]] + printed[1..];
    assert s == [s[0]] + s[1..];
  }

  // ---------------------------------------------------------------------------
  // The examples of the unit tests
  // ---------------------------------------------------------------------------

  /** "/obs/test/foo" is obs with keys test and foo, in both directions. */
  lemma {:induction false} ObsTestFoo()
    ensures ToString(FieldPath(Obs, ["test", "foo"])) == "/obs/test/foo"
    ensures FromString(Some("/obs/test/foo")) == Ok(FieldPath(Obs, ["test", "foo"]))
  {
    var p := FieldPath(Obs, ["test", "foo"]);
    assert Join(["test", "foo"]) == "test/foo" by {
      assert ["test", "foo"][1..] == ["foo"];
    }
    var printed := ToString(p);
    assert printed == "/obs" + "/" + "test/foo";
    assert "/obs" + "/" + "test/foo" == "/obs/test/foo";
    ParsePrinted(p);
  }

  /** No field is named "obsx". */
  lemma {:induction false} NoFieldObsx(f: Field)
    ensures GetPath(f) != "obsx"
  {
    assert GetPath(f)[|GetPath(f)| - 1] != 'x';
  }

  /** A path whose first piece names no field is rejected, naming that piece. */
  lemma {:induction false} UnknownFieldRejected(parts: seq<string>)
    requires |parts| >= 2 && forall i :: 0 <= i < |parts| ==> '/' !in parts[i]
    requires |parts[0]| >= 1 && parts[0][0] > ' ' && parts[|parts| - 1] != ""
    requires forall f :: GetPath(f) != parts[0]
    ensures FromString(Some("/" + Join(parts))) == Err(FieldNotFound(parts[0]))
  {
    var s := "/" + Join(parts);
    assert WithoutLeadingRoot(s) == Join(parts);
    JoinSplit(parts);
    JoinHasSeparator(parts);
    assert JavaSplit(WithoutLeadingRoot(s)) == parts;
    JoinStartsWithFirst(parts);
    TrimKeepsVisible(s);
    assert Trim(s) != "/";
  }

  /** "/obsx/test/foo" names no field. */
  lemma {:induction false} ObsxRejected()
    ensures FromString(Some("/obsx/test/foo")).Err?
  {
    var parts := ["obsx", "test", "foo"];
    assert Join(parts) == "obsx/test/foo" by {
      assert parts[1..] == ["test", "foo"];
      assert ["test", "foo"][1..] == ["foo"];
      assert Join(parts) == "obsx" + "/" + "test" + "/" + "foo";
    }
    assert "/" + Join(parts) == "/obsx/test/foo";
    assert '/' !in parts[0] && '/' !in parts[1] && '/' !in parts[2];
    forall f ensures GetPath(f) != parts[0] {
      NoFieldObsx(f);
    }
    UnknownFieldRejected(parts);
  }

  /** The empty string and "//" are rejected as invalid paths. */
  lemma {:induction false} EmptyPathsRejected()
    ensures FromString(Some("")) == Err(InvalidPath)
    ensures FromString(Some("//")) == Err(InvalidPath)
  {
    assert SplitAll("/") == ["", ""];
    assert JavaSplit("/") == [];
    TrimKeepsVisible("//");
    assert Trim("//") != "/";
    assert WithoutLeadingRoot("//") == "/";
  }
}
