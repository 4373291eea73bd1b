/** The `Cookie` header: parsing it, printing it, and its size estimate. */
module Cookies {
  import opened Wrappers

  datatype Cookie = Cookie(name: string, value: string)

  /** Unicode White_Space, which is what the service's string trimming removes. */
  predicate IsWhitespace(c: char) {
    var n := c as int;
    || 0x09 <= n <= 0x0D || n == 0x20 || n == 0x85 || n == 0xA0 || n == 0x1680
    || 0x2000 <= n <= 0x200A || n == 0x2028 || n == 0x2029 || n == 0x202F || n == 0x205F || n == 0x3000
  }

  function TrimStart(s: string): string {
    if s != [] && IsWhitespace(s[0]) then TrimStart(s[1..]) else s
  }

  function TrimEnd(s: string): string {
    if s != [] && IsWhitespace(s[|s| - 1]) then TrimEnd(s[..|s| - 1]) else s
  }

  function Trim(s: string): string { TrimEnd(TrimStart(s)) }

  /** The position of the first `c`, or the length when there is none. */
  function Index(s: string, c: char): (i: nat)
    ensures i <= |s|
    ensures c !in s[..i] && (i < |s| ==> s[i] == c)
  {
    if s == [] || s[0] == c then 0 else
      assert s[..1 + Index(s[1..], c)] == [s[0]] + s[1..][..Index(s[1..], c)];
      1 + Index(s[1..], c)
  }

  function Split(s: string, sep: char): seq<string> {
    var i := Index(s, sep);
    if i == |s| then [s] else [s[..i]] + Split(s[i + 1..], sep)
  }

  function SplitOnce(s: string, sep: char): Option<(string, string)> {
    var i := Index(s, sep);
    if i == |s| then None else Some((s[..i], s[i + 1..]))
  }

  function ParsePart(part: string): Option<Cookie> {
    var pair := Trim(part);
    if pair == [] then None else
      match SplitOnce(pair, '=')
      case None => None
      case Some((name, value)) => Some(Cookie(Trim(name), Trim(value)))
  }

  function ParseParts(parts: seq<string>): seq<Cookie> {
    if parts == [] then [] else
      (match ParsePart(parts[0]) case None => [] case Some(c) => [c]) + ParseParts(parts[1..])
  }

  function ParseCookieHeader(header: string): seq<Cookie> { ParseParts(Split(header, ';')) }

  // ---------------------------------------------------------------- printing

  function PrintCookie(c: Cookie): string { c.name + "=" + c.value }

  /** The cookie-string of section 4.2.1 of RFC 6265. */
  function Print(cs: seq<Cookie>): string {
    if cs == [] then "" else if |cs| == 1 then PrintCookie(cs[0]) else PrintCookie(cs[0]) + "; " + Print(cs[1..])
  }

  predicate Clean(c: Cookie) {
    && Trim(c.name) == c.name && Trim(c.value) == c.value
    && ';' !in c.name && '=' !in c.name && ';' !in c.value
  }

  // ---------------------------------------------------------------- trimming

  predicate Trimmed(s: string) { s != [] ==> !IsWhitespace(s[0]) && !IsWhitespace(s[|s| - 1]) }

  lemma {:induction false} TrimStartFacts(s: string, c: char)
    ensures var t := TrimStart(s);
            && |t| <= |s| && t == s[|s| - |t|..]
            && (t != [] ==> !IsWhitespace(t[0]))
            && (c !in s ==> c !in t)
  {
    if s != [] && IsWhitespace(s[0]) {
      TrimStartFacts(s[1..], c);
    }
  }

  lemma {:induction false} TrimEndFacts(s: string, c: char)
    ensures var t := TrimEnd(s);
            && |t| <= |s| && t == s[..|t|]
            && (t != [] ==> !IsWhitespace(t[|t| - 1]))
            && (c !in s ==> c !in t)
  {
    if s != [] && IsWhitespace(s[|s| - 1]) {
      TrimEndFacts(s[..|s| - 1], c);
    }
  }

  lemma TrimFacts(s: string, c: char)
    ensures Trimmed(Trim(s)) && (c !in s ==> c !in Trim(s))
    ensures Trimmed(s) <==> Trim(s) == s
  {
    TrimStartFacts(s, c);
    TrimEndFacts(TrimStart(s), c);
  }

  lemma TrimSkipsSpace(s: string)
    ensures Trim(" " + s) == Trim(s)
  {
    assert (" " + s)[1..] == s;
  }

  // ---------------------------------------------------------------- splitting

  lemma {:induction false} IndexSkips(a: string, c: char, rest: string)
    requires c !in a
    ensures Index(a + [c] + rest, c) == |a|
  {
    if a != [] {
      assert (a + [c] + rest)[1..] == a[1..] + [c] + rest;
      IndexSkips(a[1..], c, rest);
    }
  }

  lemma SplitAppends(a: string, sep: char, rest: string)
    requires sep !in a
    ensures Split(a + [sep] + rest, sep) == [a] + Split(rest, sep)
  {
    IndexSkips(a, sep, rest);
    var s := a + [sep] + rest;
    assert s[..|a|] == a && s[|a| + 1..] == rest;
  }

  lemma {:induction false} SplitWithout(s: string, sep: char)
    ensures Split(s, sep) != []
    ensures sep !in s ==> Split(s, sep) == [s]
    ensures forall part | part in Split(s, sep) :: sep !in part
  {
    var i := Index(s, sep);
    if i < |s| {
      SplitWithout(s[i + 1..], sep);
    }
  }

  lemma SplitSkipsSpace(h: string)
    ensures Split(" " + h, ';') == [" " + Split(h, ';')[0]] + Split(h, ';')[1..]
  {
    var i := Index(h, ';');
    assert (" " + h)[1..] == h;
    assert Index(" " + h, ';') == i + 1;
    if i < |h| {
      assert (" " + h)[..i + 1] == " " + h[..i] && (" " + h)[i + 2..] == h[i + 1..];
      assert Split(h, ';')[1..] == Split(h[i + 1..], ';');
    } else {
      assert Split(h, ';')[1..] == [];
    }
  }

  lemma ParseSkipsSpace(h: string)
    ensures ParseCookieHeader(" " + h) == ParseCookieHeader(h)
  {
    var parts := Split(h, ';');
    SplitSkipsSpace(h);
    SplitWithout(h, ';');
    TrimSkipsSpace(parts[0]);
    assert ([" " + parts[0]] + parts[1..])[1..] == parts[1..];
  }

  // ---------------------------------------------------------------- the round trip

  lemma PartRoundTrips(c: Cookie)
    requires Clean(c)
    ensures ParsePart(PrintCookie(c)) == Some(c)
  {
    var s := PrintCookie(c);
    TrimFacts(c.name, ';');
    TrimFacts(c.value, ';');
    assert s[|c.name|] == '=';
    assert Trimmed(s) by {
      assert s[0] == if c.name == [] then '=' else c.name[0];
      assert s[|s| - 1] == if c.value == [] then '=' else c.value[|c.value| - 1];
    }
    TrimFacts(s, ';');
    IndexSkips(c.name, '=', c.value);
    assert s == c.name + ['='] + c.value;
    assert s[..|c.name|] == c.name && s[|c.name| + 1..] == c.value;
  }

  lemma ParseOne(c: Cookie)
    requires Clean(c)
    ensures ParseCookieHeader(PrintCookie(c)) == [c]
  {
    PartRoundTrips(c);
    var part := PrintCookie(c);
    assert ';' !in part;
    SplitWithout(part, ';');
    assert [part][1..] == [] && ParseParts([part]) == [c] + ParseParts([]);
  }

  lemma ParseOneMore(c: Cookie, rest: string)
    requires Clean(c)
    ensures ParseCookieHeader(PrintCookie(c) + "; " + rest) == [c] + ParseCookieHeader(rest)
  {
    var part := PrintCookie(c);
    PartRoundTrips(c);
    ParseSkipsSpace(rest);
    assert part + "; " + rest == part + [';'] + (" " + rest);
    SplitAppends(part, ';', " " + rest);
    assert ([part] + Split(" " + rest, ';'))[1..] == Split(" " + rest, ';');
  }

  lemma {:induction false} PrintThenParse(cs: seq<Cookie>)
    requires forall c | c in cs :: Clean(c)
    ensures ParseCookieHeader(Print(cs)) == cs
  {
    if cs == [] {
      assert Split("", ';') == [""];
      assert [""][1..] == [];
    } else {
      hide ParseCookieHeader, Clean, PrintCookie;
      assert cs == [cs[0]] + cs[1..];
      if |cs| == 1 {
        ParseOne(cs[0]);
      } else {
        ParseOneMore(cs[0], Print(cs[1..]));
        PrintThenParse(cs[1..]);
      }
    }
  }

  lemma PartIsClean(part: string)
    requires ';' !in part
    ensures ParsePart(part).Some? ==> Clean(ParsePart(part).value)
  {
    var pair := Trim(part);
    TrimFacts(part, ';');
    var i := Index(pair, '=');
    if i < |pair| {
      TrimFacts(pair[..i], ';');
      TrimFacts(pair[..i], '=');
      TrimFacts(pair[i + 1..], ';');
      TrimFacts(Trim(pair[..i]), ';');
      TrimFacts(Trim(pair[i + 1..]), ';');
    }
  }

  lemma {:induction false} PartsAreClean(parts: seq<string>)
    requires forall part | part in parts :: ';' !in part
    ensures forall c | c in ParseParts(parts) :: Clean(c)
  {
    if parts != [] {
      PartIsClean(parts[0]);
      PartsAreClean(parts[1..]);
    }
  }

  /** Whatever the header, what is parsed from it is clean. */
  lemma ParsedIsClean(header: string)
    ensures forall c | c in ParseCookieHeader(header) :: Clean(c)
  {
    SplitWithout(header, ';');
    PartsAreClean(Split(header, ';'));
  }

  /** Printing and parsing gives a list back exactly when all of it is clean; and parsing
      any header, printing and parsing again changes nothing. */
  lemma RoundTripExactlyWhen(cs: seq<Cookie>, header: string)
    ensures ParseCookieHeader(Print(cs)) == cs <==> forall c | c in cs :: Clean(c)
    ensures ParseCookieHeader(Print(ParseCookieHeader(header))) == ParseCookieHeader(header)
  {
    if forall c | c in cs :: Clean(c) {
      PrintThenParse(cs);
    }
    ParsedIsClean(Print(cs));
    ParsedIsClean(header);
    PrintThenParse(ParseCookieHeader(header));
  }

  // ---------------------------------------------------------------- what is parsed

  /** The code points with the Unicode property White_Space. */
  predicate InWhiteSpace(c: char) {
    c as int in {
      0x09, 0x0A, 0x0B, 0x0C, 0x0D, 0x20, 0x85, 0xA0, 0x1680, 0x2000, 0x2001, 0x2002, 0x2003, 0x2004, 0x2005, 0x2006,
      0x2007, 0x2008, 0x2009, 0x200A, 0x2028, 0x2029, 0x202F, 0x205F, 0x3000
    }
  }

  lemma WhiteSpaceIsTrimmed(c: char)
    ensures IsWhitespace(c) <==> InWhiteSpace(c)
  {
  }

  predicate IsBlank(s: string) { forall c | c in s :: InWhiteSpace(c) }

  ghost predicate Surrounds(before: string, core: string, after: string, s: string) {
    IsBlank(before) && IsBlank(after) && s == before + core + after
  }

  /** `core` is `s` without the white space around it. */
  ghost predicate IsCore(core: string, s: string) {
    && (core != [] ==> !InWhiteSpace(core[0]) && !InWhiteSpace(core[|core| - 1]))
    && exists before, after :: Surrounds(before, core, after, s)
  }

  lemma {:induction false} TrimStartLeaves(s: string)
    ensures var t := TrimStart(s); |t| <= |s| && s == s[..|s| - |t|] + t && IsBlank(s[..|s| - |t|])
  {
    hide InWhiteSpace, IsWhitespace;
    if s != [] && IsWhitespace(s[0]) {
      WhiteSpaceIsTrimmed(s[0]);
      TrimStartLeaves(s[1..]);
      var n := |s| - |TrimStart(s)|;
      assert s[..n] == [s[0]] + s[1..][..n - 1];
    }
  }

  lemma {:induction false} TrimEndLeaves(s: string)
    ensures var t := TrimEnd(s); |t| <= |s| && s == t + s[|t|..] && IsBlank(s[|t|..])
  {
    hide InWhiteSpace, IsWhitespace;
    if s != [] && IsWhitespace(s[|s| - 1]) {
      WhiteSpaceIsTrimmed(s[|s| - 1]);
      TrimEndLeaves(s[..|s| - 1]);
      var n := |TrimEnd(s)|;
      assert s[n..] == s[..|s| - 1][n..] + [s[|s| - 1]];
    }
  }

  lemma TrimSurrounds(s: string)
    ensures var t := TrimStart(s);
            |Trim(s)| <= |t| <= |s| && Surrounds(s[..|s| - |t|], Trim(s), t[|Trim(s)|..], s)
  {
    hide TrimStart, TrimEnd, IsBlank;
    TrimStartLeaves(s);
    TrimEndLeaves(TrimStart(s));
  }

  lemma TrimIsCore(s: string)
    ensures IsCore(Trim(s), s)
  {
    hide Trim, Surrounds, IsWhitespace, InWhiteSpace;
    TrimSurrounds(s);
    TrimFacts(s, ' ');
    if Trim(s) != [] {
      WhiteSpaceIsTrimmed(Trim(s)[0]);
      WhiteSpaceIsTrimmed(Trim(s)[|Trim(s)| - 1]);
    }
  }

  lemma CoreOfStart(core: string, s: string)
    requires IsCore(core, TrimStart(s))
    ensures IsCore(core, s)
  {
    hide InWhiteSpace, IsWhitespace, TrimStart;
    TrimStartLeaves(s);
    var t := TrimStart(s);
    var before, after :| Surrounds(before, core, after, t);
    assert Surrounds(s[..|s| - |t|] + before, core, after, s);
  }

  lemma CoreOfEnd(core: string, s: string)
    requires IsCore(core, TrimEnd(s))
    ensures IsCore(core, s)
  {
    hide InWhiteSpace, IsWhitespace, TrimEnd;
    TrimEndLeaves(s);
    var t := TrimEnd(s);
    var before, after :| Surrounds(before, core, after, t);
    assert Surrounds(before, core, after + s[|t|..], s);
  }

  lemma {:induction false} TrimStartKeeps(a: string, rest: string)
    requires rest != [] && !IsWhitespace(rest[0])
    ensures TrimStart(a + rest) == TrimStart(a) + rest
  {
    hide IsWhitespace;
    if a == [] {
      assert a + rest == rest;
    } else {
      assert (a + rest)[1..] == a[1..] + rest;
      TrimStartKeeps(a[1..], rest);
    }
  }

  lemma {:induction false} TrimEndKeeps(a: string, b: string)
    requires a != [] && !IsWhitespace(a[|a| - 1])
    ensures TrimEnd(a + b) == a + TrimEnd(b)
  {
    hide IsWhitespace;
    if b == [] {
      assert a + b == a;
    } else {
      assert (a + b)[..|a + b| - 1] == a + b[..|b| - 1];
      TrimEndKeeps(a, b[..|b| - 1]);
    }
  }

  lemma TrimPiece(a: string, b: string)
    ensures Trim(a + "=" + b) == TrimStart(a) + ['='] + TrimEnd(b)
  {
    hide TrimStart, TrimEnd;
    assert a + "=" + b == a + ("=" + b);
    TrimStartKeeps(a, "=" + b);
    assert TrimStart(a) + ("=" + b) == (TrimStart(a) + "=") + b;
    TrimEndKeeps(TrimStart(a) + "=", b);
  }

  /** A piece without `=` gives no cookie; any other gives the one whose name is what stands
      before its first `=` and whose value is all the rest, without the white space around. */
  lemma PieceMeans(a: string, b: string)
    requires '=' !in a
    ensures ParsePart(a) == None
    ensures ParsePart(a + "=" + b).Some?
    ensures var c := ParsePart(a + "=" + b).value; IsCore(c.name, a) && IsCore(c.value, b)
  {
    hide IsWhitespace, TrimStart, TrimEnd, Trim, IsCore;
    TrimFacts(a, '=');
    TrimStartFacts(a, '=');
    TrimPiece(a, b);
    var name, value := TrimStart(a), TrimEnd(b);
    var pair := name + ['='] + value;
    IndexSkips(name, '=', value);
    assert pair[..|name|] == name && pair[|name| + 1..] == value;
    TrimIsCore(name);
    CoreOfStart(Trim(name), a);
    TrimIsCore(value);
    CoreOfEnd(Trim(value), b);
  }

  lemma {:induction false} ParsePartsAppend(a: seq<string>, b: seq<string>)
    ensures ParseParts(a + b) == ParseParts(a) + ParseParts(b)
  {
    hide ParsePart;
    if a == [] {
      assert a + b == b;
    } else {
      assert (a + b)[1..] == a[1..] + b;
      ParsePartsAppend(a[1..], b);
    }
  }

  lemma SplitAtFirst(s: string, sep: char)
    requires sep in s
    ensures var i := Index(s, sep);
            i < |s| && s == s[..i] + [sep] + s[i + 1..] && sep !in s[..i]
            && Split(s, sep) == [s[..i]] + Split(s[i + 1..], sep)
  {
    hide Index;
    var i := Index(s, sep);
    assert s[..|s|] == s;
  }

  lemma {:induction false} SplitApart(a: string, sep: char, b: string)
    ensures Split(a + [sep] + b, sep) == Split(a, sep) + Split(b, sep)
    decreases |a|
  {
    hide Split, Index;
    SplitWithout(a, sep);
    if sep !in a {
      SplitAppends(a, sep, b);
    } else {
      SplitAtFirst(a, sep);
      var i := Index(a, sep);
      var first, rest := a[..i], a[i + 1..];
      SplitApart(rest, sep, b);
      assert a + [sep] + b == first + [sep] + (rest + [sep] + b);
      SplitAppends(first, sep, rest + [sep] + b);
    }
  }

  /** The pieces between semicolons are read one by one, in order. */
  lemma PiecesApart(a: string, b: string)
    ensures ParseCookieHeader(a + ";" + b) == ParseCookieHeader(a) + ParseCookieHeader(b)
    ensures ';' !in a ==>
              ParseCookieHeader(a) == match ParsePart(a) case None => [] case Some(c) => [c]
  {
    hide ParsePart;
    SplitApart(a, ';', b);
    ParsePartsAppend(Split(a, ';'), Split(b, ';'));
    SplitWithout(a, ';');
    assert [a][1..] == [];
  }

  // ---------------------------------------------------------------- the size estimate

  /** Bytes of one character in UTF-8. */
  function CharBytes(c: char): nat {
    var n := c as int;
    if n < 0x80 then 1 else if n < 0x800 then 2 else if n < 0x1_0000 then 3 else 4
  }

  function ByteLen(s: string): nat {
    if s == [] then 0 else CharBytes(s[0]) + ByteLen(s[1..])
  }

  function Tail(n: nat): nat { 0x80 + n % 64 }

  /** Section 3 of RFC 3629: a lead byte with the top bits, then bytes with six bits each. */
  function Encode(n: nat): seq<nat> {
    if n < 0x80 then [n]
    else if n < 0x800 then [0xC0 + n / 64, Tail(n)]
    else if n < 0x1_0000 then [0xE0 + n / 64 / 64, Tail(n / 64), Tail(n)]
    else [0xF0 + n / 64 / 64 / 64, Tail(n / 64 / 64), Tail(n / 64), Tail(n)]
  }

  function Utf8(s: string): seq<nat> {
    if s == [] then [] else Encode(s[0] as int) + Utf8(s[1..])
  }

  /** The bits after the lead byte, behind the ones already read. */
  function Bits(high: int, tail: seq<nat>): int
    decreases |tail|
  {
    if tail == [] then high else Bits(high * 64 + tail[0] - 0x80, tail[1..])
  }

  /** The character a sequence of bytes stands for: its lead byte tells how many there are. */
  function Decode(b: seq<nat>): Option<int> {
    if |b| == 1 && b[0] < 0x80 then Some(b[0])
    else if |b| == 2 && 0xC0 <= b[0] < 0xE0 then Some(Bits(b[0] - 0xC0, b[1..]))
    else if |b| == 3 && 0xE0 <= b[0] < 0xF0 then Some(Bits(b[0] - 0xE0, b[1..]))
    else if |b| == 4 && 0xF0 <= b[0] < 0xF8 then Some(Bits(b[0] - 0xF0, b[1..]))
    else None
  }

  lemma NoBits(n: int)
    ensures Bits(n, []) == n
  {
  }

  lemma BitsOne(high: int, n: nat, rest: seq<nat>)
    requires high == n / 64
    ensures Bits(high, [Tail(n)] + rest) == Bits(n, rest)
  {
    assert ([Tail(n)] + rest)[1..] == rest;
  }

  /** The encoding is made of bytes, can be read back, and the bytes after the first carry six
      bits each. */
  lemma EncodeThenDecode(c: char)
    ensures var b := Encode(c as int);
            && Decode(b) == Some(c as int) && |b| == CharBytes(c)
            && b[0] < 0x100 && forall k | 0 < k < |b| :: 0x80 <= b[k] < 0xC0
  {
    hide Bits;
    var n := c as int;
    BitsOne(n / 64, n, []);
    BitsOne(n / 64 / 64, n / 64, [Tail(n)]);
    BitsOne(n / 64 / 64 / 64, n / 64 / 64, [Tail(n / 64), Tail(n)]);
    NoBits(n);
    assert [Tail(n)] + [] == [Tail(n)];
    assert [Tail(n / 64)] + [Tail(n)] == [Tail(n / 64), Tail(n)];
    assert [Tail(n / 64 / 64)] + [Tail(n / 64), Tail(n)] == [Tail(n / 64 / 64), Tail(n / 64), Tail(n)];
  }

  lemma {:induction false} BytesOfUtf8(s: string)
    ensures |Utf8(s)| == ByteLen(s)
  {
    if s != [] {
      BytesOfUtf8(s[1..]);
    }
  }

  lemma {:induction false} ByteLenAppends(a: string, b: string)
    ensures ByteLen(a + b) == ByteLen(a) + ByteLen(b)
  {
    if a == [] {
      assert a + b == b;
    } else {
      assert (a + b)[1..] == a[1..] + b;
      ByteLenAppends(a[1..], b);
    }
  }

  /** Printing one cookie more, with the separator in front of it. */
  lemma {:induction false} PrintAppends(cs: seq<Cookie>, c: Cookie)
    ensures Print(cs + [c]) == if cs == [] then PrintCookie(c) else Print(cs) + "; " + PrintCookie(c)
  {
    if cs != [] {
      assert (cs + [c])[1..] == cs[1..] + [c];
      PrintAppends(cs[1..], c);
    }
  }

  lemma CookieBytes(cs: seq<Cookie>, c: Cookie)
    ensures ByteLen(Print(cs + [c]))
            == (if cs == [] then 0 else ByteLen(Print(cs)) + 2) + ByteLen(c.name) + 1 + ByteLen(c.value)
  {
    PrintAppends(cs, c);
    ByteLenAppends(c.name + "=", c.value);
    ByteLenAppends(c.name, "=");
    assert ByteLen("=") == 1;
    if cs != [] {
      ByteLenAppends(Print(cs) + "; ", PrintCookie(c));
      ByteLenAppends(Print(cs), "; ");
      assert ByteLen("; ") == 2 by {
        assert "; "[1..] == " ";
      }
    }
  }

  /** The estimate is the byte length of the header those cookies print to. */
  method HeaderBytes(cookies: seq<Cookie>) returns (headerBytes: nat)
    ensures headerBytes == |Utf8(Print(cookies))|
  {
    BytesOfUtf8(Print(cookies));
    headerBytes := 0;
    for k := 0 to |cookies|
      invariant headerBytes == if k == 0 then 0 else ByteLen(Print(cookies[..k])) + 2
    {
      CookieBytes(cookies[..k], cookies[k]);
      assert cookies[..k + 1] == cookies[..k] + [cookies[k]];
      headerBytes := headerBytes + ByteLen(cookies[k].name) + 1 + ByteLen(cookies[k].value) + 2;
    }
    assert cookies[..|cookies|] == cookies;
    if headerBytes >= 2 {
      headerBytes := headerBytes - 2;
    }
  }
}
