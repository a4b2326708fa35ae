/**
 * The .NET string operations the core relies on, written out on `seq<char>`:
 * trimming, case folding, splitting on a separator string, joining, the
 * extension of a path, and the decimal text of 64-bit integers and booleans.
 */
module Text {
  import opened Wrappers

  /** The characters `String.Trim` and `NumberStyles.Integer` treat as white space (ASCII subset). */
  predicate IsWhiteSpace(c: char)
  {
    c == ' ' || c == '\t' || c == '\n' || c == '\r' || c == '\U{B}' || c == '\U{C}'
  }

  /** `String.TrimStart()`: drops the white-space prefix. */
  function TrimStart(s: string): (r: string)
    ensures |r| <= |s| && r == s[|s| - |r|..]
    ensures r == [] || !IsWhiteSpace(r[0])
    ensures forall i :: 0 <= i < |s| - |r| ==> IsWhiteSpace(s[i])
  {
    if s != [] && IsWhiteSpace(s[0]) then TrimStart(s[1..]) else s
  }

  /** `String.TrimEnd()`: drops the white-space suffix. */
  function TrimEnd(s: string): (r: string)
    ensures |r| <= |s| && r == s[..|r|]
    ensures r == [] || !IsWhiteSpace(r[|r| - 1])
    ensures forall i :: |r| <= i < |s| ==> IsWhiteSpace(s[i])
  {
    if s != [] && IsWhiteSpace(s[|s| - 1]) then TrimEnd(s[..|s| - 1]) else s
  }

  /** `String.Trim()`: drops the white-space prefix, then the white-space suffix. */
  function Trim(s: string): string
    decreases |s|
  {
    if s != [] && IsWhiteSpace(s[0]) then Trim(s[1..]) else TrimEnd(s)
  }

  /** Trimming both ends is trimming the start and then the end. */
  lemma {:induction false} TrimBothEnds(s: string)
    ensures Trim(s) == TrimEnd(TrimStart(s))
    decreases |s|
  {
    if s != [] && IsWhiteSpace(s[0]) {
      TrimBothEnds(s[1..]);
    }
  }

  /** A string that neither starts nor ends with white space is its own trim. */
  lemma TrimNoop(s: string)
    requires s == [] || (!IsWhiteSpace(s[0]) && !IsWhiteSpace(s[|s| - 1]))
    ensures Trim(s) == s
  {
  }

  /** Trimming is idempotent, and what it keeps is a contiguous piece of the input. */
  lemma TrimIdempotent(s: string)
    ensures Trim(Trim(s)) == Trim(s)
    ensures exists i, j :: 0 <= i <= j <= |s| && Trim(s) == s[i..j]
  {
    TrimBothEnds(s);
    var t := TrimStart(s);
    var r := TrimEnd(t);
    TrimEndEdges(t, r);
    TrimNoop(r);
    PrefixOfSuffix(s, t, r);
  }

  /** Trimming the end of a string that does not start with white space keeps both ends free of it. */
  lemma TrimEndEdges(t: string, r: string)
    requires t == [] || !IsWhiteSpace(t[0])
    requires r == TrimEnd(t)
    ensures r == [] || (!IsWhiteSpace(r[0]) && !IsWhiteSpace(r[|r| - 1]))
  {
    if r != [] {
      assert r[0] == t[0];
    }
  }

  /** A prefix `r` of a suffix `t` of `s` is the slice of `s` where `t` starts. */
  lemma PrefixOfSuffix(s: string, t: string, r: string)
    requires |t| <= |s| && t == s[|s| - |t|..] && |r| <= |t| && r == t[..|r|]
    ensures |s| - |t| + |r| <= |s| && r == s[|s| - |t|..|s| - |t| + |r|]
  {
    assert forall k :: 0 <= k < |r| ==> r[k] == s[|s| - |t| + k];
  }

  function ToLowerChar(c: char): char
  {
    if 'A' <= c <= 'Z' then (c as int + 32) as char else c
  }

  /** `String.ToLower()` on ASCII letters. */
  function ToLower(s: string): (r: string)
    ensures |r| == |s|
    ensures forall i :: 0 <= i < |s| ==> r[i] == ToLowerChar(s[i])
  {
    seq(|s|, i requires 0 <= i < |s| => ToLowerChar(s[i]))
  }

  predicate StartsWith(s: string, prefix: string)
  {
    |prefix| <= |s| && s[..|prefix|] == prefix
  }

  predicate EndsWith(s: string, suffix: string)
  {
    |suffix| <= |s| && s[|s| - |suffix|..] == suffix
  }

  /** `sep` occurs in `s` at position `j`. */
  predicate OccursAt(s: string, sep: string, j: int)
  {
    0 <= j && j + |sep| <= |s| && s[j..j + |sep|] == sep
  }

  /** `String.IndexOf(sep, StringComparison.Ordinal)`: the first position at which `sep` occurs. */
  function IndexOf(s: string, sep: string): (r: Option<nat>)
    requires |sep| > 0
    ensures r.Some? ==> OccursAt(s, sep, r.value)
    ensures r.Some? ==> forall j :: 0 <= j < r.value ==> !OccursAt(s, sep, j)
    ensures r.None? ==> forall j :: 0 <= j ==> !OccursAt(s, sep, j)
    decreases |s|
  {
    if |s| < |sep| then None
    else if s[..|sep|] == sep then Some(0)
    else
      match IndexOf(s[1..], sep)
      case None =>
        assert forall j :: 1 <= j ==> (OccursAt(s, sep, j) ==> OccursAt(s[1..], sep, j - 1));
        None
      case Some(k) =>
        assert forall j :: 1 <= j ==> (OccursAt(s, sep, j) <==> OccursAt(s[1..], sep, j - 1));
        Some(k + 1)
  }

  /** `String.Split(new[] { sep }, StringSplitOptions.None)`: every piece, empty ones included. */
  function SplitAll(s: string, sep: string): (r: seq<string>)
    requires |sep| > 0
    ensures |r| >= 1
    decreases |s|
  {
    match IndexOf(s, sep)
    case None => [s]
    case Some(i) => [s[..i]] + SplitAll(s[i + |sep|..], sep)
  }

  /** Drops empty pieces, keeping the order of the others (`StringSplitOptions.RemoveEmptyEntries`). */
  function RemoveEmpty(parts: seq<string>): (r: seq<string>)
    ensures |r| <= |parts|
    ensures forall i :: 0 <= i < |r| ==> r[i] != [] && r[i] in parts
    ensures forall p :: p in parts && p != [] ==> p in r
  {
    if parts == [] then []
    else if parts[0] == [] then RemoveEmpty(parts[1..])
    else [parts[0]] + RemoveEmpty(parts[1..])
  }

  /** `String.Split(new[] { sep }, StringSplitOptions.RemoveEmptyEntries)`. */
  function Split(s: string, sep: string): seq<string>
    requires |sep| > 0
  {
    RemoveEmpty(SplitAll(s, sep))
  }

  /** `String.Join(sep, parts)`. */
  function Join(sep: string, parts: seq<string>): string
  {
    if parts == [] then ""
    else if |parts| == 1 then parts[0]
    else parts[0] + sep + Join(sep, parts[1..])
  }

  /** Splitting on `sep` and joining the pieces back with `sep` gives the original text. */
  lemma {:induction false} JoinSplitAll(s: string, sep: string)
    requires |sep| > 0
    ensures Join(sep, SplitAll(s, sep)) == s
    decreases |s|
  {
    match IndexOf(s, sep)
    case None =>
    case Some(i) =>
      var rest := s[i + |sep|..];
      var tail := SplitAll(rest, sep);
      JoinSplitAll(rest, sep);
      assert SplitAll(s, sep) == [s[..i]] + tail;
      assert ([s[..i]] + tail)[1..] == tail;
      assert Join(sep, SplitAll(s, sep)) == s[..i] + sep + Join(sep, tail);
      assert s == s[..i] + s[i..i + |sep|] + rest;
  }

  /** No piece produced by splitting on `sep` contains `sep`. */
  lemma {:induction false} SplitAllPiecesFree(s: string, sep: string)
    requires |sep| > 0
    ensures forall p :: p in SplitAll(s, sep) ==> IndexOf(p, sep).None?
    decreases |s|
  {
    match IndexOf(s, sep)
    case None =>
    case Some(i) =>
      SplitAllPiecesFree(s[i + |sep|..], sep);
      var head := s[..i];
      forall j | OccursAt(head, sep, j)
        ensures OccursAt(s, sep, j) && j < i
      {
        var window := s[j..j + |sep|];
        assert forall t :: 0 <= t < |sep| ==> window[t] == head[j + t];
      }
  }

  /** A directory or volume separator, at which `Path.GetExtension` stops scanning. */
  predicate IsSeparator(c: char)
  {
    c == '\\' || c == '/' || c == ':'
  }

  /** Scans `path[..i]` backwards for the extension's dot; nothing after `i` is a dot or a separator. */
  function ExtensionScan(path: string, i: nat): (r: string)
    requires i <= |path|
    requires forall k :: i <= k < |path| ==> path[k] != '.' && !IsSeparator(path[k])
    ensures r == [] || (|r| >= 2 && r[0] == '.' && EndsWith(path, r))
    ensures r != [] ==> forall k :: 1 <= k < |r| ==> r[k] != '.' && !IsSeparator(r[k])
    decreases i
  {
    if i == 0 then ""
    else if path[i - 1] == '.' then
      (if i != |path| then path[i - 1..] else "")
    else if IsSeparator(path[i - 1]) then ""
    else ExtensionScan(path, i - 1)
  }

  /**
   * `Path.GetExtension(path)`: the text from the last dot of the file name to the end,
   * or the empty string when the name has no dot or ends with one.
   */
  function GetExtension(path: string): (r: string)
    ensures r == [] || (|r| >= 2 && r[0] == '.' && EndsWith(path, r))
    ensures r != [] ==> forall k :: 1 <= k < |r| ==> r[k] != '.' && !IsSeparator(r[k])
  {
    ExtensionScan(path, |path|)
  }

  /** Any name followed by a dot and a dot-free, separator-free, non-empty tail has that tail as extension. */
  lemma ExtensionOf(name: string, ext: string)
    requires |ext| >= 2 && ext[0] == '.'
    requires forall k :: 1 <= k < |ext| ==> ext[k] != '.' && !IsSeparator(ext[k])
    ensures GetExtension(name + ext) == ext
  {
    var path := name + ext;
    var i := |path|;
    while i > |name| + 1
      invariant |name| + 1 <= i <= |path|
      invariant ExtensionScan(path, i) == ExtensionScan(path, |path|)
    {
      assert path[i - 1] == ext[i - 1 - |name|];
      i := i - 1;
    }
    assert path[i - 1] == '.';
    assert path[i - 1..] == ext;
  }

  // ---- Decimal text of integers ---------------------------------------------

  const Int64Min: int := -0x8000_0000_0000_0000
  const Int64Max: int := 0x7FFF_FFFF_FFFF_FFFF

  predicate IsInt64(n: int)
  {
    Int64Min <= n <= Int64Max
  }

  const Int32Min: int := -0x8000_0000
  const Int32Max: int := 0x7FFF_FFFF

  predicate IsInt32(n: int)
  {
    Int32Min <= n <= Int32Max
  }

  predicate IsDigit(c: char)
  {
    '0' <= c <= '9'
  }

  predicate AllDigits(s: string)
  {
    forall i :: 0 <= i < |s| ==> IsDigit(s[i])
  }

  /** The decimal digits of `n`, most significant first, without leading zeros. */
  function NatToDigits(n: nat): (r: string)
    ensures |r| > 0 && AllDigits(r)
  {
    var last := ['0' + (n % 10) as char];
    if n < 10 then last else NatToDigits(n / 10) + last
  }

  /** The value of a string of decimal digits. */
  function DigitsValue(s: string): nat
    requires AllDigits(s)
  {
    if s == [] then 0 else 10 * DigitsValue(s[..|s| - 1]) + (s[|s| - 1] - '0') as nat
  }

  lemma {:induction false} DigitsRoundTrip(n: nat)
    ensures DigitsValue(NatToDigits(n)) == n
  {
    var last := ['0' + (n % 10) as char];
    if n >= 10 {
      DigitsRoundTrip(n / 10);
      var r := NatToDigits(n / 10) + last;
      assert r[..|r| - 1] == NatToDigits(n / 10);
    }
  }

  /** `long.ToString()`. */
  function Int64ToString(n: int): (r: string)
    ensures r != [] && !IsWhiteSpace(r[0]) && !IsWhiteSpace(r[|r| - 1])
  {
    if n < 0 then "-" + NatToDigits(-n) else NatToDigits(n)
  }

  /** The sign and digits after trimming: `NumberStyles.Integer` in the invariant culture. */
  function ParseInteger(s: string): (r: Result<int>)
  {
    var t := Trim(s);
    if t == [] then Failure("FormatException")
    else
      var negative := t[0] == '-';
      var body := if t[0] == '-' || t[0] == '+' then t[1..] else t;
      if body == [] || !AllDigits(body) then Failure("FormatException")
      else
        var magnitude: int := DigitsValue(body);
        Success(if negative then -magnitude else magnitude)
  }

  /** Text starting with neither white space, a sign nor a digit is no integer. */
  lemma WordNotInteger(s: string)
    requires s != [] && !IsWhiteSpace(s[0]) && !IsDigit(s[0]) && s[0] != '-' && s[0] != '+'
    ensures ParseInteger(s).Failure?
  {
    var t := TrimEnd(s);
    assert Trim(s) == t;
    assert t != [] && t[0] == s[0];
  }

  /** `Int64.Parse(s)`: a format error, an overflow error, or the value. */
  function ParseInt64(s: string): (r: Result<int>)
    ensures r.Success? ==> IsInt64(r.value)
  {
    match ParseInteger(s)
    case Failure(e) => Failure(e)
    case Success(v) => if IsInt64(v) then Success(v) else Failure("OverflowException")
  }

  /** The text `long.ToString()` writes is read back by `Int64.Parse` as the same value. */
  lemma Int64RoundTrip(n: int)
    requires IsInt64(n)
    ensures ParseInt64(Int64ToString(n)) == Success(n)
  {
    if n < 0 {
      NegativeRoundTrip(-n);
    } else {
      NaturalRoundTrip(n);
    }
  }

  lemma NaturalRoundTrip(m: nat)
    ensures ParseInteger(NatToDigits(m)) == Success(m)
  {
    var s := NatToDigits(m);
    assert IsDigit(s[0]) && IsDigit(s[|s| - 1]);
    TrimNoop(s);
    DigitsRoundTrip(m);
  }

  lemma NegativeRoundTrip(m: int)
    requires m >= 0
    ensures ParseInteger("-" + NatToDigits(m)) == Success(-m)
  {
    var digits := NatToDigits(m);
    var s := "-" + digits;
    assert IsDigit(digits[|digits| - 1]) && s[|s| - 1] == digits[|digits| - 1];
    TrimNoop(s);
    assert s[1..] == digits;
    DigitsRoundTrip(m);
  }

  // ---- Booleans ---------------------------------------------------------------

  /** `bool.ToString()`. */
  function BoolToString(b: bool): string
  {
    if b then "True" else "False"
  }

  /** `Boolean.Parse(s)`: "true" or "false" in any letter case, surrounded by optional white space. */
  function ParseBool(s: string): (r: Result<bool>)
  {
    var t := ToLower(Trim(s));
    if t == "true" then Success(true)
    else if t == "false" then Success(false)
    else Failure("FormatException")
  }

  lemma BoolRoundTrip(b: bool)
    ensures ParseBool(BoolToString(b)) == Success(b)
  {
    TrimNoop(BoolToString(b));
  }
  // ---- Splitting text that was joined ------------------------------------------

  /** `sep` first occurs in `p + sep` right after `p`: `p` can be a piece of a text split on `sep`. */
  predicate Piece(p: string, sep: string)
    requires |sep| > 0
  {
    IndexOf(p + sep, sep) == Some(|p|)
  }

  /** The first occurrence of `sep` in `x` is still the first one once anything is appended. */
  lemma IndexOfExtended(x: string, y: string, sep: string, k: nat)
    requires |sep| > 0 && IndexOf(x, sep) == Some(k) && k + |sep| <= |x|
    ensures IndexOf(x + y, sep) == Some(k)
  {
    forall j | 0 <= j <= k
      ensures OccursAt(x + y, sep, j) == OccursAt(x, sep, j)
    {
      OccursAtAppend(x, y, sep, j);
    }
    FirstOccurrence(x + y, sep, k);
  }

  /** An occurrence that ends inside `x` is unaffected by appending to `x`. */
  lemma OccursAtAppend(x: string, y: string, sep: string, j: nat)
    requires j + |sep| <= |x|
    ensures OccursAt(x + y, sep, j) == OccursAt(x, sep, j)
  {
    SliceOfAppend(x, y, j, j + |sep|);
  }

  lemma SliceOfAppend(x: string, y: string, a: nat, b: nat)
    requires a <= b <= |x|
    ensures (x + y)[a..b] == x[a..b]
  {
  }

  /** `IndexOf` finds an occurrence with none before it. */
  lemma FirstOccurrence(s: string, sep: string, k: nat)
    requires |sep| > 0 && OccursAt(s, sep, k)
    requires forall j :: 0 <= j < k ==> !OccursAt(s, sep, j)
    ensures IndexOf(s, sep) == Some(k)
  {
    var r := IndexOf(s, sep);
    assert r.Some?;
    assert r.value <= k;
  }

  /** Splitting the pieces joined with `sep` gives the pieces back, when each but the last ends where `sep` first occurs. */
  lemma {:induction false} SplitAllJoin(parts: seq<string>, sep: string)
    requires |sep| > 0 && parts != []
    requires forall i :: 0 <= i < |parts| - 1 ==> Piece(parts[i], sep)
    requires IndexOf(parts[|parts| - 1], sep).None?
    ensures SplitAll(Join(sep, parts), sep) == parts
    decreases |parts|
  {
    if |parts| > 1 {
      var rest := parts[1..];
      SplitAllJoin(rest, sep);
      assert Piece(parts[0], sep);
      SplitAllPiece(parts[0], sep, Join(sep, rest));
      assert parts == [parts[0]] + rest;
    }
  }

  /** A piece followed by `sep` splits off as the first piece. */
  lemma SplitAllPiece(head: string, sep: string, tail: string)
    requires |sep| > 0 && Piece(head, sep)
    ensures SplitAll(head + sep + tail, sep) == [head] + SplitAll(tail, sep)
  {
    IndexOfExtended(head + sep, tail, sep, |head|);
    var s := head + sep + tail;
    assert s[..|head|] == head;
    assert s[|head| + |sep|..] == tail;
  }

  /** Splitting non-empty pieces joined with `sep`, each but the last ending where `sep` first occurs, gives them back. */
  lemma SplitJoin(parts: seq<string>, sep: string)
    requires |sep| > 0 && parts != []
    requires forall i :: 0 <= i < |parts| ==> parts[i] != []
    requires forall i :: 0 <= i < |parts| - 1 ==> Piece(parts[i], sep)
    requires IndexOf(parts[|parts| - 1], sep).None?
    ensures Split(Join(sep, parts), sep) == parts
  {
    SplitAllJoin(parts, sep);
    RemoveEmptyKeeps(parts);
  }

  /** The three-piece case of `SplitJoin`. */
  lemma SplitJoin3(a: string, b: string, c: string, sep: string)
    requires |sep| > 0 && a != [] && b != [] && c != []
    requires Piece(a, sep) && Piece(b, sep) && IndexOf(c, sep).None?
    ensures Split(Join(sep, [a, b, c]), sep) == [a, b, c]
  {
    var parts := [a, b, c];
    assert forall i :: 0 <= i < |parts| - 1 ==> Piece(parts[i], sep) by {
      assert parts[0] == a && parts[1] == b;
    }
    SplitJoin(parts, sep);
  }

  lemma {:induction false} RemoveEmptyAppend(a: seq<string>, b: seq<string>)
    ensures RemoveEmpty(a + b) == RemoveEmpty(a) + RemoveEmpty(b)
    decreases |a|
  {
    if a == [] {
      assert a + b == b;
    } else {
      assert (a + b)[1..] == a[1..] + b;
      RemoveEmptyAppend(a[1..], b);
    }
  }

  lemma {:induction false} RemoveEmptyKeeps(parts: seq<string>)
    requires forall i :: 0 <= i < |parts| ==> parts[i] != []
    ensures RemoveEmpty(parts) == parts
    decreases |parts|
  {
    if parts != [] {
      RemoveEmptyKeeps(parts[1..]);
    }
  }

  /** A text without the first character of `sep` holds no `sep`, and is a piece of a text split on `sep`. */
  lemma SepFree(p: string, sep: string)
    requires |sep| > 0
    requires forall k :: 0 <= k < |p| ==> p[k] != sep[0]
    ensures Piece(p, sep) && IndexOf(p, sep).None?
  {
    assert OccursAt(p + sep, sep, |p|) by {
      assert (p + sep)[|p|..|p| + |sep|] == sep;
    }
    forall j | 0 <= j < |p|
      ensures !OccursAt(p + sep, sep, j) && !OccursAt(p, sep, j)
    {
      assert (p + sep)[j] == p[j];
    }
  }

  /** Joining one more piece. */
  lemma {:induction false} JoinSnoc(sep: string, parts: seq<string>, last: string)
    requires parts != []
    ensures Join(sep, parts + [last]) == Join(sep, parts) + sep + last
    decreases |parts|
  {
    if |parts| > 1 {
      JoinSnoc(sep, parts[1..], last);
      assert (parts + [last])[1..] == parts[1..] + [last];
    } else {
      assert (parts + [last])[1..] == [last];
    }
  }

  /** Blank-padded text followed by a token and then nothing or a blank: splitting on blanks yields that token first. */
  lemma {:induction false} FirstToken(pad: string, token: string, tail: string)
    requires forall k :: 0 <= k < |pad| ==> pad[k] == ' '
    requires token != [] && forall k :: 0 <= k < |token| ==> token[k] != ' '
    requires tail == [] || tail[0] == ' '
    ensures Split(pad + token + tail, " ") != [] && Split(pad + token + tail, " ")[0] == token
    decreases |pad|
  {
    var s := pad + token + tail;
    if pad != [] {
      assert s[..1] == " ";
      assert s[1..] == pad[1..] + token + tail;
      FirstToken(pad[1..], token, tail);
      assert SplitAll(s, " ") == [""] + SplitAll(s[1..], " ");
    } else {
      SepFree(token, " ");
      if tail == [] {
        assert s == token;
      } else {
        IndexOfExtended(token + " ", tail[1..], " ", |token|);
        assert s == token + " " + tail[1..];
        assert s[..|token|] == token;
        assert SplitAll(s, " ") == [token] + SplitAll(s[|token| + 1..], " ");
      }
    }
  }

  /**
   * `PathUtils.HasExtension(path, extensions)`: the path's extension, in lower case, is one of `extensions`.
   */
  predicate HasExtension(path: string, extensions: seq<string>)
  {
    ToLower(GetExtension(path)) in extensions
  }
}
