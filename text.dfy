/** Option and Result, used for the error paths of the build engine. */
module Results {

  datatype Option<+T> = None | Some(value: T)

  datatype Result<+T, +E> = Success(value: T) | Failure(error: E)
}

/**
 * Character-level helpers shared by the sidecar reader, the path model and
 * the compile-command builder: splitting on a separator class, joining with a
 * separator, whitespace tokenisation as `istringstream >> std::string` does
 * it, and the truncation at the first NUL that `std::string::c_str()` implies
 * when the result is read back as a C string.
 */
module Text {

  /** Whitespace as `isspace` classifies it in the C locale: space, \t, \n, \v, \f, \r. */
  predicate IsSpace(c: char) {
    c == ' ' || ('\t' <= c <= '\r')
  }

  /** No character of `s` is a separator. */
  predicate NoSep(s: string, isSep: char -> bool) {
    forall i :: 0 <= i < |s| ==> !isSep(s[i])
  }

  /** Cuts `s` at every separator; `n` separators give `n + 1` parts, some possibly empty. */
  function SplitWhere(s: string, isSep: char -> bool): (parts: seq<string>)
    ensures |parts| >= 1
  {
    if s == [] then [""]
    else
      var rest := SplitWhere(s[1..], isSep);
      if isSep(s[0]) then [""] + rest else [[s[0]] + rest[0]] + rest[1..]
  }

  /** Puts one `sep` between consecutive parts; no parts give the empty string. */
  function Join(parts: seq<string>, sep: char): string
  {
    if |parts| == 0 then ""
    else if |parts| == 1 then parts[0]
    else parts[0] + [sep] + Join(parts[1..], sep)
  }

  /** Drops the empty parts, keeping the others in order. */
  function NonEmpty(parts: seq<string>): (r: seq<string>)
    ensures forall i :: 0 <= i < |r| ==> r[i] != ""
    ensures |r| <= |parts|
  {
    if parts == [] then []
    else if parts[0] == "" then NonEmpty(parts[1..])
    else [parts[0]] + NonEmpty(parts[1..])
  }

  /** The words `istringstream >> word` extracts one after another: maximal runs of non-whitespace. */
  function Tokenize(s: string): seq<string>
  {
    NonEmpty(SplitWhere(s, IsSpace))
  }

  /** A string as `std::string::c_str()` hands it to a C API: cut at the first NUL. */
  function CStr(s: string): (r: string)
    ensures |r| <= |s| && r == s[..|r|]
    ensures '\0' !in r
    ensures '\0' !in s ==> r == s
    ensures |r| < |s| ==> s[|r|] == '\0'
  {
    if s == [] then []
    else if s[0] == '\0' then []
    else [s[0]] + CStr(s[1..])
  }

  /** Text that survives one line of a line-oriented file and a trip through `c_str()`. */
  predicate SafeText(s: string) {
    forall i :: 0 <= i < |s| ==> s[i] != '\n' && s[i] != '\0'
  }

  /** Appending one more part to a non-empty list adds one separator and the part at the end. */
  lemma {:induction false} JoinSnoc(parts: seq<string>, x: string, sep: char)
    requires |parts| > 0
    ensures Join(parts + [x], sep) == Join(parts, sep) + [sep] + x
  {
    if |parts| == 1 {
      assert parts + [x] == [parts[0], x];
      assert [x][1..] == [];
    } else {
      JoinSnoc(parts[1..], x, sep);
      assert (parts + [x])[1..] == parts[1..] + [x];
    }
  }

  /** Extending the last part extends the joined text by the same suffix. */
  lemma {:induction false} JoinExtendLast(parts: seq<string>, x: string, sep: char)
    requires |parts| > 0
    ensures Join(parts[..|parts| - 1] + [parts[|parts| - 1] + x], sep) == Join(parts, sep) + x
  {
    var ext := parts[..|parts| - 1] + [parts[|parts| - 1] + x];
    if |parts| > 1 {
      JoinExtendLast(parts[1..], x, sep);
      assert ext[1..] == parts[1..][..|parts[1..]| - 1] + [parts[1..][|parts[1..]| - 1] + x];
      assert ext[0] == parts[0];
    }
  }

  /** A string without separators is a single part. */
  lemma {:induction false} SplitNoSep(s: string, isSep: char -> bool)
    requires NoSep(s, isSep)
    ensures SplitWhere(s, isSep) == [s]
  {
    if s != [] {
      SplitNoSep(s[1..], isSep);
      assert [s[0]] + s[1..] == s;
    }
  }

  /** A separator-free head followed by a separator splits off as one part. */
  lemma {:induction false} SplitHead(a: string, sep: char, t: string, isSep: char -> bool)
    requires NoSep(a, isSep) && isSep(sep)
    ensures SplitWhere(a + [sep] + t, isSep) == [a] + SplitWhere(t, isSep)
  {
    if a == [] {
      assert a + [sep] + t == [sep] + t;
      assert ([sep] + t)[1..] == t;
    } else {
      SplitHead(a[1..], sep, t, isSep);
      assert (a + [sep] + t)[1..] == a[1..] + [sep] + t;
      assert [a[0]] + a[1..] == a;
    }
  }

  /** Splitting undoes joining when no part contains a separator. */
  lemma {:induction false} SplitJoin(parts: seq<string>, sep: char, isSep: char -> bool)
    requires |parts| >= 1 && isSep(sep)
    requires forall i :: 0 <= i < |parts| ==> NoSep(parts[i], isSep)
    ensures SplitWhere(Join(parts, sep), isSep) == parts
  {
    if |parts| == 1 {
      SplitNoSep(parts[0], isSep);
    } else {
      SplitJoin(parts[1..], sep, isSep);
      SplitHead(parts[0], sep, Join(parts[1..], sep), isSep);
      assert [parts[0]] + parts[1..] == parts;
    }
  }

  /** Filtering empty parts keeps a list that has none. */
  lemma {:induction false} NonEmptyKeeps(parts: seq<string>)
    requires forall i :: 0 <= i < |parts| ==> parts[i] != ""
    ensures NonEmpty(parts) == parts
  {
    if parts != [] {
      NonEmptyKeeps(parts[1..]);
      assert [parts[0]] + parts[1..] == parts;
    }
  }

  /** A flag that tokenisation gives back unchanged: non-empty, no whitespace. */
  predicate IsToken(t: string) {
    t != "" && NoSep(t, IsSpace)
  }

  /**
   * Whitespace tokenisation of the space-joined flags recovers the flags,
   * in order, when each is a non-empty whitespace-free token; no flags give
   * the empty string and no tokens.
   */
  lemma TokenizeJoin(tokens: seq<string>)
    requires forall i :: 0 <= i < |tokens| ==> IsToken(tokens[i])
    ensures Tokenize(Join(tokens, ' ')) == tokens
  {
    if tokens == [] {
      assert Join(tokens, ' ') == "";
      assert SplitWhere("", IsSpace) == [""];
    } else {
      SplitJoin(tokens, ' ', IsSpace);
      NonEmptyKeeps(tokens);
    }
  }

  /** Joining line-safe parts with a line-safe separator gives line-safe text. */
  lemma {:induction false} JoinSafe(parts: seq<string>, sep: char)
    requires sep != '\n' && sep != '\0'
    requires forall i :: 0 <= i < |parts| ==> SafeText(parts[i])
    ensures SafeText(Join(parts, sep))
  {
    if |parts| > 1 {
      JoinSafe(parts[1..], sep);
    }
  }

  /** `c_str()` is the identity on text without NUL. */
  lemma CStrSafe(s: string)
    requires SafeText(s)
    ensures CStr(s) == s
  {
  }
}
