/** Publishing the server under a URL prefix: reading the prefix, taking it off
    requests and putting it back on redirects. A string is a sequence of bytes. */
module BasePath {
  import opened Strings
  import opened Wrappers

  datatype Refusal = AbsoluteUrl | BadSegment(segment: string)

  // ----- characters -----

  predicate IsHexDigit(c: char) {
    '0' <= c <= '9' || 'a' <= c <= 'f' || 'A' <= c <= 'F'
  }

  predicate IsUnreserved(c: char) {
    'a' <= c <= 'z' || 'A' <= c <= 'Z' || '0' <= c <= '9' || c == '-' || c == '.' || c == '_' || c == '~'
  }

  predicate IsSubDelim(c: char) {
    c in "!$&'()*+,;="
  }

  /** A complete escape at the front. */
  predicate StartsWithEscape(s: string) {
    |s| >= 3 && s[0] == '%' && IsHexDigit(s[1]) && IsHexDigit(s[2])
  }

  /** *pchar of section 3.3 of RFC 3986. */
  predicate PChars(s: string) {
    || s == ""
    || ((IsUnreserved(s[0]) || IsSubDelim(s[0]) || s[0] == ':' || s[0] == '@') && PChars(s[1..]))
    || (StartsWithEscape(s) && PChars(s[3..]))
  }

  /** Letters, digits, these marks and percent signs, and nothing else: no markup,
      space, quote or backslash. */
  lemma {:induction false} OnlyPlainChars(s: string, i: nat)
    requires PChars(s) && i < |s|
    ensures 'a' <= s[i] <= 'z' || 'A' <= s[i] <= 'Z' || '0' <= s[i] <= '9' || s[i] in "-._~!$&'()*+,;=:@%"
  {
    if StartsWithEscape(s) {
      if i >= 3 {
        OnlyPlainChars(s[3..], i - 3);
      }
    } else if i > 0 {
      OnlyPlainChars(s[1..], i - 1);
    }
  }

  /** Each of them but the percent sign is a segment by itself. */
  lemma PlainCharIsSegment(s: string)
    requires |s| == 1
    requires 'a' <= s[0] <= 'z' || 'A' <= s[0] <= 'Z' || '0' <= s[0] <= '9' || s[0] in "-._~!$&'()*+,;=:@"
    ensures PChars(s)
  {
    assert PChars(s[1..]);
  }

  /** segment-nz of the same section. */
  predicate ValidSegment(s: string) {
    s != "" && PChars(s)
  }

  method IsValidBasePathSegment(segment: string) returns (ok: bool)
    ensures ok <==> ValidSegment(segment)
  {
    if segment == "" {
      return false;
    }
    var i := 0;
    while i < |segment|
      invariant 0 <= i <= |segment|
      invariant PChars(segment) <==> PChars(segment[i..])
    {
      var c := segment[i];
      ghost var rest := segment[i..];
      assert rest[1..] == segment[i + 1..];
      if IsUnreserved(c) || c in "!$&'()" || c in "*+,;=:@" {
      } else if c == '%' {
        if i + 2 >= |segment| || !IsHexDigit(segment[i + 1]) || !IsHexDigit(segment[i + 2]) {
          return false;
        }
        assert rest[3..] == segment[i + 3..];
        i := i + 2;
      } else {
        return false;
      }
      i := i + 1;
    }
    return true;
  }

  // ----- normalising -----

  predicate Contains(s: string, t: string) {
    exists i :: 0 <= i <= |s| && t <= s[i..]
  }

  /** The first segment that is refused, if any. */
  function FirstBad(segments: seq<string>): (bad: Option<string>)
    ensures bad.None? <==> forall i :: 0 <= i < |segments| ==> ValidSegment(segments[i])
    ensures bad.Some? ==> exists i :: 0 <= i < |segments| && bad.value == segments[i] && !ValidSegment(segments[i])
                                      && forall j :: 0 <= j < i ==> ValidSegment(segments[j])
  {
    if segments == [] then None
    else if !ValidSegment(segments[0]) then Some(segments[0])
    else FirstBad(segments[1..])
  }

  function Normalized(raw: string): Result<string, Refusal> {
    if raw == "" || raw == "/" then Ok("")
    else if Contains(raw, "://") || "//" <= raw then Err(AbsoluteUrl)
    else Joined(TrimChar(raw, '/'))
  }

  function Joined(trimmed: string): Result<string, Refusal> {
    if trimmed == "" then Ok("")
    else match FirstBad(Split(trimmed, '/'))
      case None => Ok("/" + trimmed)
      case Some(segment) => Err(BadSegment(segment))
  }

  method NormalizeBasePath(raw: string) returns (r: Result<string, Refusal>)
    ensures r == Normalized(raw)
  {
    if raw == "" || raw == "/" {
      return Ok("");
    }
    if Contains(raw, "://") || "//" <= raw {
      return Err(AbsoluteUrl);
    }
    var trimmed := TrimChar(raw, '/');
    if trimmed == "" {
      return Ok("");
    }
    var bad := CheckSegments(Split(trimmed, '/'));
    return if bad.Some? then Err(BadSegment(bad.value)) else Ok("/" + trimmed);
  }

  /** The loop of normalizeBasePath. */
  method CheckSegments(segments: seq<string>) returns (bad: Option<string>)
    ensures bad == FirstBad(segments)
  {
    var i := 0;
    while i < |segments|
      invariant 0 <= i <= |segments|
      invariant FirstBad(segments) == FirstBad(segments[i..])
    {
      var ok := IsValidBasePathSegment(segments[i]);
      assert segments[i..][0] == segments[i];
      if !ok {
        return Some(segments[i]);
      }
      assert segments[i..][1..] == segments[i + 1..];
      i := i + 1;
    }
    return None;
  }

  /** What an accepted prefix looks like: the site root, or segments of pchar, each
      led by a slash. */
  ghost predicate IsPrefix(p: string) {
    p == "" || exists segments :: IsPrefixOf(p, segments)
  }

  ghost predicate IsPrefixOf(p: string, segments: seq<string>) {
    && segments != []
    && p == "/" + Join(segments, '/')
    && forall i :: 0 <= i < |segments| ==> ValidSegment(segments[i])
  }

  /** Every accepted value has that shape. */
  lemma AcceptedIsPrefix(raw: string)
    requires Normalized(raw).Ok?
    ensures IsPrefix(Normalized(raw).value)
  {
    var trimmed := TrimChar(raw, '/');
    if Normalized(raw).value != "" {
      JoinSplit(trimmed, '/');
      assert IsPrefixOf("/" + trimmed, Split(trimmed, '/'));
    }
  }

  lemma {:induction false} PCharsHaveNoSlash(s: string)
    requires PChars(s)
    ensures Free(s, '/')
  {
    if s != "" {
      if StartsWithEscape(s) {
        PCharsHaveNoSlash(s[3..]);
        assert s == s[..3] + s[3..];
      } else {
        PCharsHaveNoSlash(s[1..]);
      }
    }
  }

  lemma SegmentsHaveNoSlash(segments: seq<string>)
    requires forall i :: 0 <= i < |segments| ==> ValidSegment(segments[i])
    ensures AllFree(segments, '/')
  {
    forall i | 0 <= i < |segments|
      ensures Free(segments[i], '/')
    {
      PCharsHaveNoSlash(segments[i]);
    }
  }

  lemma {:induction false} NoDoubleSlash(segments: seq<string>, i: nat)
    requires segments != [] && AllFree(segments, '/')
    requires forall k :: 0 <= k < |segments| ==> segments[k] != ""
    requires i + 1 < |Join(segments, '/')|
    ensures Join(segments, '/')[i] != '/' || Join(segments, '/')[i + 1] != '/'
  {
    var x := segments[0];
    if |segments| == 1 {
      assert x[i] != '/';
    } else {
      var rest := Join(segments[1..], '/');
      assert Join(segments, '/') == x + ['/'] + rest;
      if i < |x| {
        assert x[i] != '/';
      } else if i == |x| {
        assert segments[1..][0] == segments[1];
        assert rest[0] == segments[1][0];
      } else {
        NoDoubleSlash(segments[1..], i - |x| - 1);
      }
    }
  }

  lemma IsNoUrl(segments: seq<string>)
    requires segments != [] && AllFree(segments, '/')
    requires forall k :: 0 <= k < |segments| ==> segments[k] != ""
    ensures !Contains("/" + Join(segments, '/'), "://")
  {
    var t, url := Join(segments, '/'), "://";
    var p := "/" + t;
    if Contains(p, url) {
      var i :| 0 <= i <= |p| && url <= p[i..];
      assert p[i] == url[0] && p[i + 1] == url[1] && p[i + 2] == url[2];
      assert t[i] == '/' && t[i + 1] == '/';
      NoDoubleSlash(segments, i);
    }
  }

  lemma PrefixTrims(p: string, t: string, segments: seq<string>)
    requires IsPrefixOf(p, segments) && t == Join(segments, '/')
    ensures |p| > 1 && p[1] != '/' && !Contains(p, "://") && TrimChar(p, '/') == t && t != ""
    ensures Split(t, '/') == segments
  {
    SegmentsHaveNoSlash(segments);
    JoinEnds(segments, '/');
    TrimLeading(t, '/');
    SplitJoin(segments, '/');
    IsNoUrl(segments);
  }

  lemma PrefixOfIsAccepted(p: string, t: string, segments: seq<string>)
    requires IsPrefixOf(p, segments) && t == Join(segments, '/')
    ensures Normalized(p) == Ok(p)
  {
    PrefixTrims(p, t, segments);
    GoodSegmentsJoin(p, t, segments);
    NormalizedIs(p);
  }

  lemma NormalizedIs(p: string)
    requires |p| > 1 && !(p[0] == '/' && p[1] == '/') && !Contains(p, "://")
    ensures Normalized(p) == Joined(TrimChar(p, '/'))
  {
    var two := "//";
    assert two[0] == '/' && two[1] == '/' && !(two <= p);
  }

  lemma NormalizedOfOne(p: string)
    requires |p| == 1 && p[0] != '/'
    ensures Normalized(p) == Joined(TrimChar(p, '/'))
  {
    TooShort(p, "://");
    TooShort(p, "//");
    var one := "/";
    assert one[0] == '/' && p != one;
  }

  lemma TooShort(s: string, t: string)
    requires |s| < |t|
    ensures !Contains(s, t) && !(t <= s)
  {
  }

  lemma GoodSegmentsJoin(p: string, t: string, segments: seq<string>)
    requires IsPrefixOf(p, segments) && t == Join(segments, '/') && t != "" && Split(t, '/') == segments
    ensures Joined(t) == Ok(p)
  {
    assert FirstBad(segments).None?;
  }

  /** Every value of that shape is accepted as it stands. */
  lemma PrefixIsAccepted(p: string)
    requires IsPrefix(p)
    ensures Normalized(p) == Ok(p)
  {
    if p != "" {
      var segments :| IsPrefixOf(p, segments);
      PrefixOfIsAccepted(p, Join(segments, '/'), segments);
    }
  }

  /** An absolute URL is refused as such, and only one. */
  lemma UrlIsRefused(raw: string)
    ensures Normalized(raw) == Err(AbsoluteUrl) <==>
            Contains(raw, "://") || (|raw| > 1 && raw[0] == '/' && raw[1] == '/')
  {
    var two, url := "//", "://";
    if |raw| > 1 && raw[0] == '/' && raw[1] == '/' {
      assert two <= raw;
    } else {
      assert !(two <= raw);
    }
    if Contains(raw, url) {
      var i :| 0 <= i <= |raw| && url <= raw[i..];
      assert |raw| >= 3;
    }
  }

  /** With or without a slash in front and behind, segments are accepted as the same
      prefix. */
  lemma SlashesDoNotMatter(segments: seq<string>, t: string, front: string, back: string)
    requires segments != [] && t == Join(segments, '/') && (front == "" || front == "/") && (back == "" || back == "/")
    requires forall i :: 0 <= i < |segments| ==> ValidSegment(segments[i])
    ensures Normalized(front + t + back) == Ok("/" + t)
  {
    SegmentsHaveNoSlash(segments);
    JoinEnds(segments, '/');
    NoUrlInside(segments, t, front, back);
    SlashesAreTrimmed(t, front, back);
    SplitJoin(segments, '/');
    GoodSegmentsJoin("/" + t, t, segments);
  }

  lemma SlashesAreTrimmed(t: string, front: string, back: string)
    requires (front == "" || front == "/") && (back == "" || back == "/")
    requires t != "" && t[0] != '/' && t[|t| - 1] != '/' && !Contains(front + t + back, "://")
    ensures Normalized(front + t + back) == Joined(t)
  {
    var raw := front + t + back;
    TrimRemoves(front, t, back, x => x == '/');
    assert raw[|front|] == t[0];
    if |raw| > 1 {
      NormalizedIs(raw);
    } else {
      NormalizedOfOne(raw);
    }
  }

  lemma NoUrlInside(segments: seq<string>, t: string, front: string, back: string)
    requires segments != [] && t == Join(segments, '/') && (front == "" || front == "/") && (back == "" || back == "/")
    requires AllFree(segments, '/') && (forall i :: 0 <= i < |segments| ==> segments[i] != "")
    requires t != "" && t[0] != '/' && t[|t| - 1] != '/'
    ensures !Contains(front + t + back, "://")
  {
    var raw, url := front + t + back, "://";
    if Contains(raw, url) {
      var i :| 0 <= i <= |raw| && url <= raw[i..];
      assert raw[i] == url[0] && raw[i + 1] == url[1] && raw[i + 2] == url[2];
      var j := i + 1 - |front|;
      if 0 <= j && j + 1 < |t| {
        assert t[j] == '/' && t[j + 1] == '/';
        NoDoubleSlash(segments, j);
      }
    }
  }

  /** Normalising is idempotent, and its accepted results are exactly the prefixes. */
  lemma NormalizeIsIdempotent(raw: string)
    requires Normalized(raw).Ok?
    ensures Normalized(Normalized(raw).value) == Normalized(raw)
  {
    AcceptedIsPrefix(raw);
    PrefixIsAccepted(Normalized(raw).value);
  }

  // ----- percent-decoding -----

  function HexValue(c: char): (v: nat)
    requires IsHexDigit(c)
    ensures v < 16
  {
    if c <= '9' then c as int - '0' as int
    else if c <= 'F' then c as int - 'A' as int + 10
    else c as int - 'a' as int + 10
  }

  /** Both cases of a hexadecimal digit mean the same. */
  lemma HexValueOf(v: nat)
    requires v < 16
    ensures var c, upper := "0123456789abcdef"[v], "0123456789ABCDEF"[v];
            IsHexDigit(c) && IsHexDigit(upper) && HexValue(c) == v && HexValue(upper) == v
  {
  }

  /** The first pass of url.PathUnescape: every escape is complete. */
  predicate Complete(s: string) {
    || s == ""
    || (s[0] != '%' && Complete(s[1..]))
    || (StartsWithEscape(s) && Complete(s[3..]))
  }

  /** The length of the first unit, a byte or an escape, and what it stands for. */
  function UnitLength(s: string): (n: nat)
    requires s != "" && Complete(s)
    ensures 0 < n <= |s| && Complete(s[n..])
  {
    if s[0] == '%' then 3 else 1
  }

  function UnitByte(s: string): char
    requires s != "" && Complete(s)
  {
    if s[0] == '%' then (16 * HexValue(s[1]) + HexValue(s[2])) as char else s[0]
  }

  /** The second pass. */
  function Plain(s: string): string
    requires Complete(s)
    decreases |s|
  {
    if s == "" then "" else [UnitByte(s)] + Plain(s[UnitLength(s)..])
  }

  function Decode(s: string): Option<string> {
    if Complete(s) then Some(Plain(s)) else None
  }

  /** Decoding goes piece by piece once the first piece is complete. */
  lemma {:induction false} CompleteConcat(a: string, b: string)
    requires Complete(a)
    ensures Complete(a + b) <==> Complete(b)
  {
    if a == "" {
      assert a + b == b;
    } else if a[0] == '%' {
      assert (a + b)[3..] == a[3..] + b;
      CompleteConcat(a[3..], b);
    } else {
      assert (a + b)[1..] == a[1..] + b;
      CompleteConcat(a[1..], b);
    }
  }

  lemma FirstUnit(a: string, b: string)
    requires a != "" && Complete(a) && Complete(a + b)
    ensures UnitLength(a + b) == UnitLength(a) && UnitByte(a + b) == UnitByte(a)
    ensures (a + b)[UnitLength(a)..] == a[UnitLength(a)..] + b
  {
  }

  lemma {:induction false} PlainConcat(a: string, b: string)
    requires Complete(a) && Complete(b) && Complete(a + b)
    ensures Plain(a + b) == Plain(a) + Plain(b)
    decreases |a|
  {
    if a == "" {
      assert a + b == b;
    } else {
      var rest := a[UnitLength(a)..];
      FirstUnit(a, b);
      PlainConcat(rest, b);
      assert Plain(a + b) == [UnitByte(a)] + Plain(rest + b);
    }
  }

  lemma DecodeConcat(a: string, b: string)
    requires Complete(a)
    ensures Complete(a + b) <==> Complete(b)
    ensures Complete(b) ==> Plain(a + b) == Plain(a) + Plain(b)
  {
    CompleteConcat(a, b);
    if Complete(b) {
      PlainConcat(a, b);
    }
  }

  lemma {:induction false} NothingToDecode(s: string)
    requires Free(s, '%')
    ensures Complete(s) && Plain(s) == s
  {
    if s != "" {
      NothingToDecode(s[1..]);
      assert s == [s[0]] + s[1..];
    }
  }

  lemma {:induction false} PCharsDecode(s: string)
    requires PChars(s)
    ensures Complete(s)
  {
    if s != "" {
      if StartsWithEscape(s) {
        PCharsDecode(s[3..]);
      } else {
        PCharsDecode(s[1..]);
      }
    }
  }

  lemma DecodeLeadingSlash(s: string)
    requires Complete(s)
    ensures Complete("/" + s) && Plain("/" + s) == "/" + Plain(s)
  {
    assert ("/" + s)[1..] == s;
  }

  lemma CompleteJoined(x: string, rest: string)
    requires Complete(x) && Complete(rest)
    ensures Complete(x + ['/'] + rest)
  {
    DecodeLeadingSlash(rest);
    CompleteConcat(x, "/" + rest);
    assert x + ['/'] + rest == x + ("/" + rest);
  }

  lemma {:induction false} SegmentsDecode(segments: seq<string>)
    requires forall i :: 0 <= i < |segments| ==> ValidSegment(segments[i])
    ensures Complete(Join(segments, '/'))
  {
    if segments != [] {
      PCharsDecode(segments[0]);
      if |segments| > 1 {
        SegmentsDecode(segments[1..]);
        CompleteJoined(segments[0], Join(segments[1..], '/'));
      }
    }
  }

  /** The branch for a prefix that cannot be decoded is never taken. */
  lemma PrefixDecodes(p: string)
    requires IsPrefix(p)
    ensures Decode(p).Some?
  {
    if p != "" {
      var segments :| IsPrefixOf(p, segments);
      SegmentsDecode(segments);
      DecodeLeadingSlash(Join(segments, '/'));
    }
  }

  // ----- stripping -----

  /** prefixRemainder. */
  function PrefixRemainder(prefix: string, p: string): (r: Option<string>)
    ensures r.Some? <==> p == prefix || prefix + "/" <= p
    ensures r.Some? ==> r.value != "" && r.value[0] == '/'
  {
    if !(prefix <= p) || (p[|prefix|..] != "" && !("/" <= p[|prefix|..])) then
      None
    else if p[|prefix|..] == "" then Some("/")
    else Some(p[|prefix|..])
  }

  datatype Url = Url(path: string, rawPath: string, rawQuery: string)

  datatype Request = Request(url: Url, requestUri: string)

  /** The escaped form, where there is one, stands for the decoded one. */
  predicate Coherent(u: Url) {
    u.rawPath == "" || Decode(u.rawPath) == Some(u.path)
  }

  function DecodedPrefix(prefix: string): Option<string> {
    if '%' in prefix then Decode(prefix) else Some(prefix)
  }

  function StripUrl(prefix: string, u: Url): Option<Url> {
    match DecodedPrefix(prefix)
    case None => None
    case Some(decoded) =>
      match PrefixRemainder(decoded, u.path)
      case None => None
      case Some(path) =>
        var raw := if u.rawPath == "" then "" else
                   match PrefixRemainder(prefix, u.rawPath)
                   case None => ""
                   case Some(raw) => raw;
        Some(Url(path, raw, u.rawQuery))
  }

  lemma DecodedPrefixIs(prefix: string)
    requires IsPrefix(prefix)
    ensures DecodedPrefix(prefix).Some? && DecodedPrefix(prefix) == Decode(prefix)
  {
    PrefixDecodes(prefix);
    if '%' !in prefix {
      NothingToDecode(prefix);
    }
  }

  /** What is left of a string below a prefix of it. */
  function Below(rest: string): string {
    if rest == "" then "/" else rest
  }

  lemma RemainderIs(prefix: string, rest: string)
    requires rest == "" || rest[0] == '/'
    ensures PrefixRemainder(prefix, prefix + rest) == Some(Below(rest))
  {
    assert (prefix + rest)[|prefix|..] == rest;
  }

  lemma PlainBelow(rest: string)
    requires Complete(rest) && (rest == "" || rest[0] == '/')
    ensures Complete(Below(rest)) && Plain(Below(rest)) == Below(Plain(rest))
    ensures Plain(rest) == "" || Plain(rest)[0] == '/'
  {
    var slash := "/";
    assert slash[1..] == "";
    assert Complete(slash) && Plain(slash) == slash;
  }

  lemma DecodedRemainder(prefix: string, rest: string, path: string)
    requires IsPrefix(prefix) && Decode(prefix + rest) == Some(path)
    requires rest == "" || rest[0] == '/'
    ensures Complete(Below(rest)) && DecodedPrefix(prefix).Some?
    ensures PrefixRemainder(DecodedPrefix(prefix).value, path) == Some(Plain(Below(rest)))
  {
    DecodedPrefixIs(prefix);
    DecodeConcat(prefix, rest);
    PlainBelow(rest);
    RemainderIs(Plain(prefix), Plain(rest));
  }

  /** Stripping a target that carries the prefix verbatim: both forms lose it. */
  lemma StripVerbatim(prefix: string, rest: string, u: Url)
    requires IsPrefix(prefix) && Decode(prefix + rest) == Some(u.path)
    requires rest == "" || rest[0] == '/'
    requires u.rawPath == "" || u.rawPath == prefix + rest
    ensures Complete(Below(rest))
    ensures StripUrl(prefix, u) ==
            Some(Url(Plain(Below(rest)), if u.rawPath == "" then "" else Below(rest), u.rawQuery))
  {
    DecodedRemainder(prefix, rest, u.path);
    RemainderIs(prefix, rest);
  }

  /** A request is stripped exactly when its path is the prefix, decoded, or lies below
      it; a path that merely starts with the same characters does not. */
  lemma StripsIff(prefix: string, u: Url)
    requires IsPrefix(prefix)
    ensures Complete(prefix)
    ensures StripUrl(prefix, u).Some? <==> u.path == Plain(prefix) || Plain(prefix) + "/" <= u.path
    ensures StripUrl(prefix, u).Some? ==>
      && StripUrl(prefix, u).value.rawQuery == u.rawQuery
      && (u.path != Plain(prefix) ==> u.path == Plain(prefix) + StripUrl(prefix, u).value.path)
  {
    DecodedPrefixIs(prefix);
    RemainderOf(Plain(prefix), u.path);
  }

  lemma RemainderOf(prefix: string, p: string)
    ensures PrefixRemainder(prefix, p).Some? && p != prefix ==> p == prefix + PrefixRemainder(prefix, p).value
  {
    if prefix <= p {
      assert p == prefix + p[|prefix|..];
    }
  }

  /** Stripping commutes with decoding: what is left of the escaped path is nothing
      or stands for what is left of the path. */
  lemma StrippingKeepsCoherence(prefix: string, u: Url)
    requires IsPrefix(prefix) && Coherent(u) && StripUrl(prefix, u).Some?
    ensures Coherent(StripUrl(prefix, u).value)
  {
    if u.rawPath != "" && PrefixRemainder(prefix, u.rawPath).Some? {
      var rest := u.rawPath[|prefix|..];
      assert u.rawPath == prefix + rest;
      StripVerbatim(prefix, rest, u);
    }
  }

  // ----- the request line -----

  /** The bytes net/url escapes in a path. */
  predicate ShouldEscape(c: char) {
    !IsUnreserved(c) && c !in "$&+,/:;=@"
  }

  function UpperHex(v: nat): (c: char)
    requires v < 16
    ensures IsHexDigit(c) && HexValue(c) == v
  {
    if v < 10 then ('0' as int + v) as char else ('A' as int + v - 10) as char
  }

  function EscapeByte(c: char): string {
    if ShouldEscape(c) then ['%', UpperHex(c as int / 16 % 16), UpperHex(c as int % 16)] else [c]
  }

  function Escape(s: string): string {
    if s == "" then "" else EscapeByte(s[0]) + Escape(s[1..])
  }

  /** A path as it may stand on the request line. */
  predicate ValidEncoded(s: string) {
    forall i :: 0 <= i < |s| ==> s[i] in "!$&'()*+,;=:@[]%" || !ShouldEscape(s[i])
  }

  /** URL.EscapedPath. */
  function EscapedPath(u: Url): string {
    if u.rawPath != "" && ValidEncoded(u.rawPath) && Decode(u.rawPath) == Some(u.path) then u.rawPath
    else if u.path == "*" then "*"
    else Escape(u.path)
  }

  predicate Bytes(s: string) {
    forall i :: 0 <= i < |s| ==> s[i] as int < 256
  }

  lemma EscapedUnit(c: char, e: string, rest: string)
    requires c as int < 256 && ShouldEscape(c) && e == EscapeByte(c)
    ensures StartsWithEscape(e + rest) && (e + rest)[3..] == rest
    ensures 16 * HexValue(e[1]) + HexValue(e[2]) == c as int
  {
    assert 16 * (c as int / 16) + c as int % 16 == c as int;
  }

  lemma EscapeByteDecodes(c: char, rest: string)
    requires c as int < 256 && Complete(rest)
    ensures Complete(EscapeByte(c) + rest) && Plain(EscapeByte(c) + rest) == [c] + Plain(rest)
  {
    var e := EscapeByte(c);
    if ShouldEscape(c) {
      EscapedUnit(c, e, rest);
      assert UnitLength(e + rest) == 3 && UnitByte(e + rest) == c;
    } else {
      assert (e + rest)[1..] == rest;
      assert UnitLength(e + rest) == 1 && UnitByte(e + rest) == c;
    }
  }

  /** Decoding undoes escaping. */
  lemma {:induction false} DecodeEscape(s: string)
    requires Bytes(s)
    ensures Decode(Escape(s)) == Some(s)
  {
    if s != "" {
      DecodeEscape(s[1..]);
      EscapeByteDecodes(s[0], Escape(s[1..]));
      assert s == [s[0]] + s[1..];
    }
  }

  lemma {:induction false} EscapeConcat(a: string, b: string)
    ensures Escape(a + b) == Escape(a) + Escape(b)
  {
    if a == "" {
      assert a + b == b;
    } else {
      assert (a + b)[1..] == a[1..] + b;
      EscapeConcat(a[1..], b);
    }
  }

  lemma PlainOfSomething(s: string)
    requires Complete(s) && s != ""
    ensures Plain(s) != ""
  {
  }

  /** Two complete strings that start the same text and mean the same are the same. */
  lemma SameMeaningSameCut(a: string, b: string, x: string, y: string)
    requires Complete(a) && Complete(b) && Plain(a) == Plain(b)
    requires a + x == b + y
    ensures a == b && x == y
  {
    if |a| <= |b| {
      CutsAgree(a, b, x, y);
    } else {
      CutsAgree(b, a, y, x);
    }
  }

  lemma CutsAgree(a: string, b: string, x: string, y: string)
    requires Complete(a) && Complete(b) && Plain(a) == Plain(b)
    requires a + x == b + y && |a| <= |b|
    ensures a == b && x == y
  {
    var c := b[|a|..];
    assert b == (b + y)[..|b|] && a == (a + x)[..|a|];
    assert b == a + c;
    DecodeConcat(a, c);
    if c != "" {
      PlainOfSomething(c);
    }
    assert x == (a + x)[|a|..] && y == (b + y)[|b|..];
  }

  lemma {:induction false} PlainBytes(s: string)
    requires Bytes(s) && Complete(s)
    ensures Bytes(Plain(s))
    decreases |s|
  {
    if s != "" {
      PlainBytes(s[UnitLength(s)..]);
    }
  }

  /** What StripBasePath hands on: the request itself, or its rewritten copy. */
  function Strip(prefix: string, r: Request): Request {
    if prefix == "" then r
    else match StripUrl(prefix, r.url)
      case None => r
      case Some(u) => Request(u, RequestUri(u))
  }

  function RequestUri(u: Url): string {
    if u.rawQuery != "" then EscapedPath(u) + "?" + u.rawQuery else EscapedPath(u)
  }

  /** Without a prefix, or with a path that is not below it, the request is handed on as
      it is. */
  lemma NotStripped(prefix: string, r: Request)
    requires IsPrefix(prefix) && Complete(prefix)
    requires prefix == "" || !(r.url.path == Plain(prefix) || Plain(prefix) + "/" <= r.url.path)
    ensures Strip(prefix, r) == r
  {
    if prefix != "" {
      StripsIff(prefix, r.url);
    }
  }

  /** The request line of a stripped request names the stripped path, in escaped form. */
  lemma StrippedRequestLine(prefix: string, u: Url)
    requires IsPrefix(prefix) && Bytes(u.path) && StripUrl(prefix, u).Some?
    ensures var v := StripUrl(prefix, u).value;
            Decode(EscapedPath(v)) == Some(v.path) && v.path != "" && v.path[0] == '/'
  {
    var v := StripUrl(prefix, u).value;
    DecodedPrefixIs(prefix);
    assert Bytes(v.path);
    DecodeEscape(v.path);
  }

  /** How net/url reads an escaped path: the escaped form is kept unless it is the
      one that escaping would give. */
  function ReadPath(target: string, query: string): (u: Url)
    requires Complete(target)
    ensures Coherent(u)
  {
    Url(Plain(target), if Escape(Plain(target)) == target then "" else target, query)
  }

  function WithBasePath(prefix: string, path: string): string {
    if prefix == "" then path else prefix + path
  }

  /** Reading a path and writing it out again gives the path back. */
  lemma EscapedPathOfRead(target: string, query: string)
    requires Complete(target) && ValidEncoded(target) && target != "" && target[0] == '/'
    ensures EscapedPath(ReadPath(target, query)) == target
  {
    var u := ReadPath(target, query);
    assert u.path[0] == '/';
  }

  /** Stripping undoes WithBasePath on every root-absolute path: the handler sees the
      same decoded path and the same request line as without any prefix. */
  lemma StripUndoesWithBasePath(prefix: string, path: string, query: string)
    requires IsPrefix(prefix) && Complete(path) && Bytes(prefix + path) && path != "" && path[0] == '/'
    ensures Complete(WithBasePath(prefix, path))
    ensures var u := ReadPath(WithBasePath(prefix, path), query);
            var r := Strip(prefix, Request(u, RequestUri(u)));
            var direct := ReadPath(path, query);
            && r.url.path == direct.path && r.url.rawQuery == query
            && (ValidEncoded(path) ==>
                  && r.requestUri == RequestUri(direct) && EscapedPath(r.url) == path
                  && r.requestUri == if query == "" then path else path + "?" + query)
  {
    PrefixDecodes(prefix);
    DecodeConcat(prefix, path);
    if prefix == "" {
      if ValidEncoded(path) {
        EscapedPathOfRead(path, query);
      }
    } else {
      var u := ReadPath(prefix + path, query);
      StripVerbatim(prefix, path, u);
      if ValidEncoded(path) {
        EscapedPathOfRead(path, query);
        StrippedEscapes(prefix, path, query);
      }
    }
  }

  lemma StrippedEscapes(prefix: string, path: string, query: string)
    requires IsPrefix(prefix) && Complete(path) && Bytes(prefix + path) && path != "" && path[0] == '/'
    requires ValidEncoded(path) && Complete(prefix + path)
    ensures var u := ReadPath(prefix + path, query);
            StripUrl(prefix, u).Some? && EscapedPath(StripUrl(prefix, u).value) == path
  {
    var u := ReadPath(prefix + path, query);
    StripVerbatim(prefix, path, u);
    SlashStays(path);
    if u.rawPath == "" {
      PrefixDecodes(prefix);
      CanonicalRest(prefix, path);
    }
  }

  lemma SlashStays(path: string)
    requires Complete(path) && path != "" && path[0] == '/'
    ensures Plain(path) != "" && Plain(path)[0] == '/'
  {
  }

  /** What follows a prefix in a text that escaping would give is such a text too. */
  lemma CanonicalRest(prefix: string, path: string)
    requires Complete(prefix) && Complete(path) && Complete(prefix + path) && Bytes(prefix + path)
    requires Escape(Plain(prefix + path)) == prefix + path
    ensures Escape(Plain(path)) == path
  {
    DecodeConcat(prefix, path);
    assert Bytes(prefix) by {
      assert forall i :: 0 <= i < |prefix| ==> prefix[i] == (prefix + path)[i];
    }
    PlainBytes(prefix);
    DecodeEscape(Plain(prefix));
    EscapeConcat(Plain(prefix), Plain(path));
    SameMeaningSameCut(Escape(Plain(prefix)), prefix, Escape(Plain(path)), path);
  }

  // ----- redirects -----

  /** prefixLocation. */
  function PrefixLocation(prefix: string, location: string): string {
    if !("/" <= location) || "//" <= location then location
    else if location == prefix || prefix + "/" <= location then location
    else prefix + location
  }

  /** A location on another origin, or relative to the page, is left alone; one that
      points at this server and does not carry the prefix gets it. */
  lemma ForeignLocationIsKept(prefix: string, location: string)
    ensures location == "" || location[0] != '/' || (|location| > 1 && location[1] == '/') ==>
      PrefixLocation(prefix, location) == location
    ensures "/" <= location && !("//" <= location) && PrefixRemainder(prefix, location).None? ==>
      PrefixLocation(prefix, location) == prefix + location
  {
    var one, two := "/", "//";
    if location == "" || location[0] != '/' {
      assert !(one <= location);
    } else if |location| > 1 && location[1] == '/' {
      assert two <= location;
    }
  }

  lemma PrefixLocationIsIdempotent(prefix: string, location: string)
    ensures PrefixLocation(prefix, PrefixLocation(prefix, location)) == PrefixLocation(prefix, location)
  {
    if "/" <= location {
      assert location == "/" + location[1..];
      assert prefix + location == prefix + "/" + location[1..];
    }
  }

  /** A location that already carries the prefix is left alone exactly when what
      follows the prefix is nothing or starts with a slash. */
  lemma PrefixedLocationIsKeptIff(prefix: string, path: string)
    requires IsPrefix(prefix) && prefix != ""
    ensures PrefixLocation(prefix, WithBasePath(prefix, path)) == WithBasePath(prefix, path)
            <==> path == "" || path[0] == '/'
  {
    StartsOnce(prefix);
    var location := prefix + path;
    assert location[0] == '/' && location[1] == prefix[1];
    if path == "" {
      assert location == prefix;
    } else {
      NextAfter(prefix, path);
    }
  }

  lemma NextAfter(prefix: string, path: string)
    requires path != ""
    ensures prefix + "/" <= prefix + path <==> path[0] == '/'
    ensures prefix + path != prefix && (prefix != "" ==> prefix + (prefix + path) != prefix + path)
  {
    assert (prefix + path)[|prefix|] == path[0];
    assert (prefix + "/")[|prefix|] == '/';
    assert |prefix + (prefix + path)| == 2 * |prefix| + |path|;
  }

  lemma StartsOnce(prefix: string)
    requires IsPrefix(prefix) && prefix != ""
    ensures |prefix| > 1 && prefix[0] == '/' && prefix[1] != '/'
  {
    var segments :| IsPrefixOf(prefix, segments);
    PrefixTrims(prefix, Join(segments, '/'), segments);
  }

  /** A redirect to a path of the server comes back as that path, unless the path
      already reads as one below the prefix. */
  lemma RedirectComesBackIff(prefix: string, location: string)
    requires IsPrefix(prefix) && prefix != ""
    requires "/" <= location && !("//" <= location)
    ensures PrefixRemainder(prefix, PrefixLocation(prefix, location)) == Some(location)
            <==> PrefixRemainder(prefix, location).None?
  {
    if PrefixRemainder(prefix, location).None? {
      RemainderIs(prefix, location);
    } else {
      StartsOnce(prefix);
    }
  }
}
