/** The few JavaScript value and string semantics the handlers depend on:
    truthiness, the white-space class shared by `\s` and `trim`, and the
    `indexOf`, `split` and `trim` string methods for a one-character separator. */
module Js {

  import opened Wrappers

  /** A request-body value as Express hands it over. Numbers are modelled as exact
      reals (there is no NaN and no rounding), and a non-array object is
      represented without its contents. */
  datatype JsValue =
    | Undefined
    | Null
    | Bool(b: bool)
    | Num(n: real)
    | Str(s: string)
    | Arr(items: seq<JsValue>)
    | Object

  /** JavaScript truthiness: `false`, `0`, `""`, `null` and `undefined` are falsy,
      every array and object is truthy. */
  predicate Truthy(v: JsValue) {
    match v
    case Undefined => false
    case Null => false
    case Bool(b) => b
    case Num(n) => n != 0.0
    case Str(s) => s != ""
    case Arr(_) => true
    case Object => true
  }

  /** A body field that is either absent or a string, as a JavaScript value. */
  function FromOption(o: Option<string>): JsValue {
    match o
    case None => Undefined
    case Some(s) => Str(s)
  }

  /** Truthiness of an absent-or-string field: present and non-empty. */
  predicate Present(o: Option<string>)
    ensures Present(o) <==> o.Some? && o.value != ""
  {
    Truthy(FromOption(o))
  }

  /** ECMAScript WhiteSpace and LineTerminator code points: the characters the
      regular-expression class `\s` matches and `String.prototype.trim` removes. */
  predicate IsWhitespace(c: char) {
    || c == '\t' || c == '\n' || c == '\U{000B}' || c == '\U{000C}' || c == '\r'
    || c == ' ' || c == '\U{00A0}' || c == '\U{1680}'
    || ('\U{2000}' <= c <= '\U{200A}')
    || c == '\U{2028}' || c == '\U{2029}' || c == '\U{202F}' || c == '\U{205F}'
    || c == '\U{3000}' || c == '\U{FEFF}'
  }

  /** `s.indexOf(c)`, except that a missing character gives |s| rather than -1. */
  function IndexOf(s: string, c: char): (r: nat)
    ensures r <= |s|
    ensures r < |s| ==> s[r] == c
    ensures forall k :: 0 <= k < r ==> s[k] != c
  {
    if s == [] then 0
    else if s[0] == c then 0
    else 1 + IndexOf(s[1..], c)
  }

  /** The number of occurrences of `c` in `s`. */
  function Count(s: string, c: char): nat {
    if s == [] then 0
    else (if s[0] == c then 1 else 0) + Count(s[1..], c)
  }

  /** `s.split(sep)` for a one-character separator: the maximal pieces between
      separators, empty pieces included, so "" gives [""]. */
  function Split(s: string, sep: char): (r: seq<string>)
    ensures |r| >= 1
    decreases |s|
  {
    var k := IndexOf(s, sep);
    if k == |s| then [s] else [s[..k]] + Split(s[k + 1..], sep)
  }

  /** `parts.join(sep)`. */
  function Join(parts: seq<string>, sep: char): string
    decreases |parts|
  {
    if parts == [] then ""
    else if |parts| == 1 then parts[0]
    else parts[0] + [sep] + Join(parts[1..], sep)
  }

  lemma {:induction false} CountAppend(a: string, b: string, c: char)
    ensures Count(a + b, c) == Count(a, c) + Count(b, c)
  {
    if a == [] {
      assert a + b == b;
    } else {
      assert (a + b)[1..] == a[1..] + b;
      CountAppend(a[1..], b, c);
    }
  }

  lemma {:induction false} CountAbsent(s: string, c: char)
    requires forall k :: 0 <= k < |s| ==> s[k] != c
    ensures Count(s, c) == 0
  {
    if s != [] {
      CountAbsent(s[1..], c);
    }
  }

  /** Splitting yields one more piece than there are separators. */
  lemma {:induction false} SplitPieceCount(s: string, sep: char)
    ensures |Split(s, sep)| == Count(s, sep) + 1
    decreases |s|
  {
    var k := IndexOf(s, sep);
    assert s == s[..k] + s[k..];
    CountAbsent(s[..k], sep);
    CountAppend(s[..k], s[k..], sep);
    if k < |s| {
      assert s[k..] == [sep] + s[k + 1..];
      CountAppend([sep], s[k + 1..], sep);
      SplitPieceCount(s[k + 1..], sep);
    }
  }

  /** No piece contains the separator. */
  lemma {:induction false} SplitPiecesLackSeparator(s: string, sep: char)
    ensures forall i, k :: 0 <= i < |Split(s, sep)| && 0 <= k < |Split(s, sep)[i]| ==> Split(s, sep)[i][k] != sep
    decreases |s|
  {
    var k := IndexOf(s, sep);
    if k < |s| {
      SplitPiecesLackSeparator(s[k + 1..], sep);
    }
  }

  /** Joining the pieces with the separator gives back the string. */
  lemma {:induction false} SplitJoin(s: string, sep: char)
    ensures Join(Split(s, sep), sep) == s
    decreases |s|
  {
    var k := IndexOf(s, sep);
    if k < |s| {
      var rest := Split(s[k + 1..], sep);
      SplitJoin(s[k + 1..], sep);
      assert Split(s, sep) == [s[..k]] + rest;
      assert (Split(s, sep))[1..] == rest;
      assert s == s[..k] + [sep] + s[k + 1..];
    }
  }

  /** The first piece is the part of `s` before the first separator, the whole of
      `s` when there is none. */
  lemma SplitFirstPiece(s: string, sep: char)
    ensures Split(s, sep)[0] == s[..IndexOf(s, sep)]
  {
  }

  /** `s.trimStart()`. */
  function TrimStart(s: string): string {
    if s != [] && IsWhitespace(s[0]) then TrimStart(s[1..]) else s
  }

  /** `s.trimEnd()`. */
  function TrimEnd(s: string): string {
    if s != [] && IsWhitespace(s[|s| - 1]) then TrimEnd(s[..|s| - 1]) else s
  }

  /** `s.trim()`. */
  function Trim(s: string): string {
    TrimEnd(TrimStart(s))
  }

  predicate AllWhitespace(s: string) {
    forall k :: 0 <= k < |s| ==> IsWhitespace(s[k])
  }

  /** A white-space prefix of length `i` is what `trimStart` drops. */
  lemma {:induction false} TrimStartShape(s: string) returns (i: nat)
    ensures i <= |s| && TrimStart(s) == s[i..] && AllWhitespace(s[..i])
    ensures TrimStart(s) != [] ==> !IsWhitespace(TrimStart(s)[0])
  {
    if s != [] && IsWhitespace(s[0]) {
      var i' := TrimStartShape(s[1..]);
      i := i' + 1;
      assert s[1..][i'..] == s[i..];
      forall k | 0 <= k < i ensures IsWhitespace(s[..i][k]) {
        if k > 0 {
          assert s[..i][k] == s[1..][..i'][k - 1];
        }
      }
    } else {
      i := 0;
    }
  }

  /** A white-space suffix starting at `j` is what `trimEnd` drops. */
  lemma {:induction false} TrimEndShape(s: string) returns (j: nat)
    ensures j <= |s| && TrimEnd(s) == s[..j] && AllWhitespace(s[j..])
    ensures TrimEnd(s) != [] ==> !IsWhitespace(TrimEnd(s)[|TrimEnd(s)| - 1])
  {
    if s != [] && IsWhitespace(s[|s| - 1]) {
      var init := s[..|s| - 1];
      j := TrimEndShape(init);
      assert init[..j] == s[..j];
      forall k | 0 <= k < |s| - j ensures IsWhitespace(s[j..][k]) {
        if k < |init| - j {
          assert s[j..][k] == init[j..][k];
        }
      }
    } else {
      j := |s|;
    }
  }

  /** `trim` removes exactly a white-space prefix and a white-space suffix: the
      result is a contiguous part of the input that neither starts nor ends with
      white space. */
  lemma TrimShape(s: string)
    ensures exists i, j :: 0 <= i <= j <= |s| && Trim(s) == s[i..j]
                           && AllWhitespace(s[..i]) && AllWhitespace(s[j..])
    ensures Trim(s) != [] ==> !IsWhitespace(Trim(s)[0]) && !IsWhitespace(Trim(s)[|Trim(s)| - 1])
  {
    var i := TrimStartShape(s);
    var t := s[i..];
    var j := TrimEndShape(t);
    assert t[..j] == s[i..i + j];
    assert t[j..] == s[i + j..];
    if Trim(s) != [] {
      assert Trim(s)[0] == t[0];
    }
  }
}
