/** HTTP Basic authentication of the admin API
    (services/api/middleware/auth.py): the `Authorization` header carries
    `Basic ` and the base64 form (section 4 of RFC 4648) of the UTF-8 bytes
    of `email:password` (section 2 of RFC 7617). The admin table is a map
    from email to admin row. The model follows the `if not response.data`
    branch as written: a lookup that finds no row answers 401. The error
    that `.single()` raises when several rows share an email is not part
    of this model, because the map keys rows by email. */
module Auth {
  import opened Wrappers
  import opened Text
  import opened Http

  // ---------------------------------------------------------------------
  // Base64, section 4 of RFC 4648

  predicate IsByte(b: int) { 0 <= b < 256 }
  predicate AreBytes(bs: seq<int>) { forall k :: 0 <= k < |bs| ==> IsByte(bs[k]) }

  /** The character of a 6-bit value: `A`-`Z`, `a`-`z`, `0`-`9`, `+`, `/`. */
  function B64Char(v: int): (c: char)
    requires 0 <= v < 64
  {
    if v < 26 then ('A' as int + v) as char
    else if v < 52 then ('a' as int + v - 26) as char
    else if v < 62 then ('0' as int + v - 52) as char
    else if v == 62 then '+'
    else '/'
  }

  /** The 6-bit value of an alphabet character; `=` and everything else
      have none. */
  function B64Value(c: char): (r: Option<int>)
    ensures r.Some? ==> 0 <= r.value < 64 && B64Char(r.value) == c
  {
    if 'A' <= c <= 'Z' then Some(c as int - 'A' as int)
    else if 'a' <= c <= 'z' then Some(c as int - 'a' as int + 26)
    else if '0' <= c <= '9' then Some(c as int - '0' as int + 52)
    else if c == '+' then Some(62)
    else if c == '/' then Some(63)
    else None
  }

  lemma B64ValueOfChar(v: int)
    requires 0 <= v < 64
    ensures B64Value(B64Char(v)) == Some(v)
  {
  }

  /** The four 6-bit values of three bytes, high bits first. */
  function Sextet0(b0: int): (v: int)
    requires IsByte(b0)
    ensures 0 <= v < 64
  {
    b0 / 4
  }

  function Sextet1(b0: int, b1: int): (v: int)
    requires IsByte(b0) && IsByte(b1)
    ensures 0 <= v < 64
  {
    (b0 % 4) * 16 + b1 / 16
  }

  function Sextet2(b1: int, b2: int): (v: int)
    requires IsByte(b1) && IsByte(b2)
    ensures 0 <= v < 64
  {
    (b1 % 16) * 4 + b2 / 64
  }

  function Sextet3(b2: int): (v: int)
    requires IsByte(b2)
    ensures 0 <= v < 64
  {
    b2 % 64
  }

  /** The three bytes of four 6-bit values. */
  function Byte0(v0: int, v1: int): (b: int)
    requires 0 <= v0 < 64 && 0 <= v1 < 64
    ensures IsByte(b)
  {
    v0 * 4 + v1 / 16
  }

  function Byte1(v1: int, v2: int): (b: int)
    requires 0 <= v1 < 64 && 0 <= v2 < 64
    ensures IsByte(b)
  {
    (v1 % 16) * 16 + v2 / 4
  }

  function Byte2(v2: int, v3: int): (b: int)
    requires 0 <= v2 < 64 && 0 <= v3 < 64
    ensures IsByte(b)
  {
    (v2 % 4) * 64 + v3
  }

  /** Regrouping the bits gives the bytes back. */
  lemma BytesOfSextets(b0: int, b1: int, b2: int)
    requires IsByte(b0) && IsByte(b1) && IsByte(b2)
    ensures Byte0(Sextet0(b0), Sextet1(b0, b1)) == b0
    ensures Byte1(Sextet1(b0, b1), Sextet2(b1, b2)) == b1
    ensures Byte2(Sextet2(b1, b2), Sextet3(b2)) == b2
  {
  }

  /** Three bytes as four characters. */
  function EncodeTriple(b0: int, b1: int, b2: int): (g: string)
    requires IsByte(b0) && IsByte(b1) && IsByte(b2)
    ensures |g| == 4
  {
    [B64Char(Sextet0(b0)), B64Char(Sextet1(b0, b1)), B64Char(Sextet2(b1, b2)), B64Char(Sextet3(b2))]
  }

  /** Two final bytes as three characters and one `=`. */
  function EncodePair(b0: int, b1: int): (g: string)
    requires IsByte(b0) && IsByte(b1)
    ensures |g| == 4
  {
    [B64Char(Sextet0(b0)), B64Char(Sextet1(b0, b1)), B64Char(Sextet2(b1, 0)), '=']
  }

  /** One final byte as two characters and two `=`. */
  function EncodeSingle(b0: int): (g: string)
    requires IsByte(b0)
    ensures |g| == 4
  {
    [B64Char(Sextet0(b0)), B64Char(Sextet1(b0, 0)), '=', '=']
  }

  /** `base64.b64encode`: three bytes to four characters, the last group
      padded with `=`. */
  function B64Encode(bs: seq<int>): (s: string)
    requires AreBytes(bs)
    ensures |s| % 4 == 0
  {
    if |bs| == 0 then []
    else if |bs| == 1 then EncodeSingle(bs[0])
    else if |bs| == 2 then EncodePair(bs[0], bs[1])
    else EncodeTriple(bs[0], bs[1], bs[2]) + B64Encode(bs[3..])
  }

  /** The bytes of one group of four characters; padding is allowed only
      in the last group. */
  function DecodeGroup(g: string, last: bool): (r: Option<seq<int>>)
    requires |g| == 4
    ensures r.Some? ==> AreBytes(r.value) && 1 <= |r.value| <= 3
  {
    var v0 := B64Value(g[0]);
    var v1 := B64Value(g[1]);
    var v2 := B64Value(g[2]);
    var v3 := B64Value(g[3]);
    if v0.None? || v1.None? then None
    else if g[2] == '=' then
      if g[3] == '=' && last then Some([Byte0(v0.value, v1.value)]) else None
    else if v2.None? then None
    else if g[3] == '=' then
      if last then Some([Byte0(v0.value, v1.value), Byte1(v1.value, v2.value)]) else None
    else if v3.None? then None
    else Some([Byte0(v0.value, v1.value), Byte1(v1.value, v2.value), Byte2(v2.value, v3.value)])
  }

  /** `base64.b64decode` of text in the strict form: whole groups of the
      alphabet, with `=` padding only at the end. */
  function B64Decode(s: string): (r: Option<seq<int>>)
    decreases |s|
    ensures r.Some? ==> AreBytes(r.value)
  {
    if s == [] then Some([])
    else if |s| < 4 then None
    else
      var g := DecodeGroup(s[..4], |s| == 4);
      if g.None? then None
      else
        var rest := B64Decode(s[4..]);
        if rest.None? then None else Some(g.value + rest.value)
  }

  lemma DecodeFullGroup(b0: int, b1: int, b2: int, last: bool)
    requires IsByte(b0) && IsByte(b1) && IsByte(b2)
    ensures DecodeGroup(EncodeTriple(b0, b1, b2), last) == Some([b0, b1, b2])
  {
    var g := EncodeTriple(b0, b1, b2);
    B64ValueOfChar(Sextet0(b0));
    B64ValueOfChar(Sextet1(b0, b1));
    B64ValueOfChar(Sextet2(b1, b2));
    B64ValueOfChar(Sextet3(b2));
    assert B64Value(g[0]) == Some(Sextet0(b0)) && B64Value(g[1]) == Some(Sextet1(b0, b1));
    assert B64Value(g[2]) == Some(Sextet2(b1, b2)) && B64Value(g[3]) == Some(Sextet3(b2));
    assert g[2] != '=' && g[3] != '=';
    assert DecodeGroup(g, last) == Some([Byte0(Sextet0(b0), Sextet1(b0, b1)), Byte1(Sextet1(b0, b1), Sextet2(b1, b2)),
                                         Byte2(Sextet2(b1, b2), Sextet3(b2))]);
    BytesOfSextets(b0, b1, b2);
  }

  lemma DecodeTwoByteGroup(b0: int, b1: int)
    requires IsByte(b0) && IsByte(b1)
    ensures DecodeGroup(EncodePair(b0, b1), true) == Some([b0, b1])
  {
    var g := EncodePair(b0, b1);
    B64ValueOfChar(Sextet0(b0));
    B64ValueOfChar(Sextet1(b0, b1));
    B64ValueOfChar(Sextet2(b1, 0));
    assert B64Value(g[0]) == Some(Sextet0(b0)) && B64Value(g[1]) == Some(Sextet1(b0, b1));
    assert B64Value(g[2]) == Some(Sextet2(b1, 0)) && g[2] != '=' && g[3] == '=';
    assert DecodeGroup(g, true) == Some([Byte0(Sextet0(b0), Sextet1(b0, b1)), Byte1(Sextet1(b0, b1), Sextet2(b1, 0))]);
    BytesOfSextets(b0, b1, 0);
  }

  lemma DecodeOneByteGroup(b0: int)
    requires IsByte(b0)
    ensures DecodeGroup(EncodeSingle(b0), true) == Some([b0])
  {
    var g := EncodeSingle(b0);
    B64ValueOfChar(Sextet0(b0));
    B64ValueOfChar(Sextet1(b0, 0));
    assert B64Value(g[0]) == Some(Sextet0(b0)) && B64Value(g[1]) == Some(Sextet1(b0, 0));
    assert g[2] == '=' && g[3] == '=';
    assert DecodeGroup(g, true) == Some([Byte0(Sextet0(b0), Sextet1(b0, 0))]);
    BytesOfSextets(b0, 0, 0);
  }

  /** One group of four characters, then the rest. */
  lemma B64DecodeConcat(g: string, tail: string, x: seq<int>, y: seq<int>)
    requires |g| == 4 && DecodeGroup(g, tail == []) == Some(x) && B64Decode(tail) == Some(y)
    ensures B64Decode(g + tail) == Some(x + y)
  {
    var s := g + tail;
    assert s[..4] == g && s[4..] == tail;
  }

  lemma B64RoundTripOne(b0: int)
    requires IsByte(b0)
    ensures B64Decode(EncodeSingle(b0)) == Some([b0])
  {
    DecodeOneByteGroup(b0);
    B64DecodeConcat(EncodeSingle(b0), [], [b0], []);
    assert EncodeSingle(b0) + [] == EncodeSingle(b0) && [b0] + [] == [b0];
  }

  lemma B64RoundTripTwo(b0: int, b1: int)
    requires IsByte(b0) && IsByte(b1)
    ensures B64Decode(EncodePair(b0, b1)) == Some([b0, b1])
  {
    DecodeTwoByteGroup(b0, b1);
    B64DecodeConcat(EncodePair(b0, b1), [], [b0, b1], []);
    assert EncodePair(b0, b1) + [] == EncodePair(b0, b1) && [b0, b1] + [] == [b0, b1];
  }

  lemma B64RoundTripGroup(b0: int, b1: int, b2: int, tail: string, y: seq<int>)
    requires IsByte(b0) && IsByte(b1) && IsByte(b2) && B64Decode(tail) == Some(y)
    ensures B64Decode(EncodeTriple(b0, b1, b2) + tail) == Some([b0, b1, b2] + y)
  {
    DecodeFullGroup(b0, b1, b2, tail == []);
    B64DecodeConcat(EncodeTriple(b0, b1, b2), tail, [b0, b1, b2], y);
  }

  lemma B64RoundTripOneByte(bs: seq<int>)
    requires AreBytes(bs) && |bs| == 1
    ensures B64Decode(B64Encode(bs)) == Some(bs)
  {
    assert B64Encode(bs) == EncodeSingle(bs[0]);
    B64RoundTripOne(bs[0]);
    assert [bs[0]] == bs;
  }

  lemma B64RoundTripTwoBytes(bs: seq<int>)
    requires AreBytes(bs) && |bs| == 2
    ensures B64Decode(B64Encode(bs)) == Some(bs)
  {
    assert B64Encode(bs) == EncodePair(bs[0], bs[1]);
    B64RoundTripTwo(bs[0], bs[1]);
    assert [bs[0], bs[1]] == bs;
  }

  lemma B64RoundTripLong(bs: seq<int>)
    requires AreBytes(bs) && |bs| >= 3
    requires B64Decode(B64Encode(bs[3..])) == Some(bs[3..])
    ensures B64Decode(B64Encode(bs)) == Some(bs)
  {
    EncodeLong(bs);
    B64RoundTripGroup(bs[0], bs[1], bs[2], B64Encode(bs[3..]), bs[3..]);
    SplitThree(bs);
  }

  lemma EncodeLong(bs: seq<int>)
    requires AreBytes(bs) && |bs| >= 3
    ensures B64Encode(bs) == EncodeTriple(bs[0], bs[1], bs[2]) + B64Encode(bs[3..])
  {
  }

  lemma SplitThree(bs: seq<int>)
    requires |bs| >= 3
    ensures [bs[0], bs[1], bs[2]] + bs[3..] == bs
  {
  }

  /** Decoding gives back the encoded bytes. */
  lemma {:induction false} B64RoundTrip(bs: seq<int>)
    requires AreBytes(bs)
    decreases |bs|
    ensures B64Decode(B64Encode(bs)) == Some(bs)
  {
    if |bs| == 1 {
      B64RoundTripOneByte(bs);
    } else if |bs| == 2 {
      B64RoundTripTwoBytes(bs);
    } else if |bs| >= 3 {
      B64RoundTrip(bs[3..]);
      B64RoundTripLong(bs);
    }
  }

  // ---------------------------------------------------------------------
  // UTF-8

  predicate IsContinuation(b: int) { 0x80 <= b < 0xC0 }

  /** A code point that is a character: not a surrogate, at most 0x10FFFF. */
  predicate IsScalar(cp: int) { 0 <= cp < 0xD800 || 0xE000 <= cp < 0x110000 }

  /** The first character of the bytes and how many bytes it takes, as
      Python's strict decoder reads them: no overlong form, no surrogate,
      nothing above 0x10FFFF. */
  function DecodeFirst(bs: seq<int>): (r: Option<(char, nat)>)
    requires AreBytes(bs)
    ensures r.Some? ==> 1 <= r.value.1 <= |bs|
  {
    if bs == [] then None
    else
      var b0 := bs[0];
      if b0 < 0x80 then Some((b0 as char, 1))
      else if 0xC0 <= b0 < 0xE0 then
        if |bs| < 2 || !IsContinuation(bs[1]) then None
        else
          var cp := (b0 - 0xC0) * 64 + (bs[1] - 0x80);
          if cp < 0x80 then None else Some((cp as char, 2))
      else if 0xE0 <= b0 < 0xF0 then
        if |bs| < 3 || !IsContinuation(bs[1]) || !IsContinuation(bs[2]) then None
        else
          var cp := (b0 - 0xE0) * 4096 + (bs[1] - 0x80) * 64 + (bs[2] - 0x80);
          if cp < 0x800 || !IsScalar(cp) then None else Some((cp as char, 3))
      else if 0xF0 <= b0 < 0xF8 then
        if |bs| < 4 || !IsContinuation(bs[1]) || !IsContinuation(bs[2]) || !IsContinuation(bs[3]) then None
        else
          var cp := (b0 - 0xF0) * 262144 + (bs[1] - 0x80) * 4096 + (bs[2] - 0x80) * 64 + (bs[3] - 0x80);
          if cp < 0x10000 || !IsScalar(cp) then None else Some((cp as char, 4))
      else None
  }

  /** `bytes.decode("utf-8")`: None where Python raises. */
  function Utf8Decode(bs: seq<int>): Option<string>
    requires AreBytes(bs)
    decreases |bs|
  {
    if bs == [] then Some([])
    else
      var first := DecodeFirst(bs);
      if first.None? then None
      else
        var rest := Utf8Decode(bs[first.value.1..]);
        if rest.None? then None else Some([first.value.0] + rest.value)
  }

  lemma Recompose2(n: int)
    requires 0x80 <= n < 0x800
    ensures 2 <= n / 64 < 32 && 0 <= n % 64 < 64
    ensures (n / 64) * 64 + n % 64 == n
  {
  }

  lemma Recompose3(n: int)
    requires 0x800 <= n < 0x10000
    ensures 0 <= n / 4096 < 16 && 0 <= (n / 64) % 64 < 64 && 0 <= n % 64 < 64
    ensures (n / 4096) * 4096 + ((n / 64) % 64) * 64 + n % 64 == n
  {
    assert n / 64 == (n / 4096) * 64 + (n / 64) % 64;
  }

  lemma Recompose4(n: int)
    requires 0x10000 <= n < 0x110000
    ensures 0 <= n / 262144 < 5 && 0 <= (n / 4096) % 64 < 64 && 0 <= (n / 64) % 64 < 64 && 0 <= n % 64 < 64
    ensures (n / 262144) * 262144 + ((n / 4096) % 64) * 4096 + ((n / 64) % 64) * 64 + n % 64 == n
  {
    assert n / 64 == (n / 4096) * 64 + (n / 64) % 64;
    assert n / 4096 == (n / 262144) * 64 + (n / 4096) % 64;
  }

  lemma DecodeFirstTwo(c: char, rest: seq<int>)
    requires AreBytes(rest) && 0x80 <= c as int < 0x800
    ensures AreBytes(Utf8Char(c) + rest)
    ensures DecodeFirst(Utf8Char(c) + rest) == Some((c, 2))
  {
    var n := c as int;
    var bs := Utf8Char(c) + rest;
    Recompose2(n);
    assert bs[0] == 0xC0 + n / 64 && bs[1] == 0x80 + n % 64;
    assert (bs[0] - 0xC0) * 64 + (bs[1] - 0x80) == n;
  }

  lemma DecodeFirstThree(c: char, rest: seq<int>)
    requires AreBytes(rest) && 0x800 <= c as int < 0x10000
    ensures AreBytes(Utf8Char(c) + rest)
    ensures DecodeFirst(Utf8Char(c) + rest) == Some((c, 3))
  {
    var n := c as int;
    var bs := Utf8Char(c) + rest;
    Recompose3(n);
    assert bs[0] == 0xE0 + n / 4096 && bs[1] == 0x80 + (n / 64) % 64 && bs[2] == 0x80 + n % 64;
    assert (bs[0] - 0xE0) * 4096 + (bs[1] - 0x80) * 64 + (bs[2] - 0x80) == n;
  }

  lemma DecodeFirstFour(c: char, rest: seq<int>)
    requires AreBytes(rest) && 0x10000 <= c as int
    ensures AreBytes(Utf8Char(c) + rest)
    ensures DecodeFirst(Utf8Char(c) + rest) == Some((c, 4))
  {
    var n := c as int;
    var bs := Utf8Char(c) + rest;
    Recompose4(n);
    assert bs[0] == 0xF0 + n / 262144 && bs[1] == 0x80 + (n / 4096) % 64;
    assert bs[2] == 0x80 + (n / 64) % 64 && bs[3] == 0x80 + n % 64;
    assert (bs[0] - 0xF0) * 262144 + (bs[1] - 0x80) * 4096 + (bs[2] - 0x80) * 64 + (bs[3] - 0x80) == n;
  }

  /** Each character's encoding is read back as that character. */
  lemma DecodeFirstChar(c: char, rest: seq<int>)
    requires AreBytes(rest)
    ensures AreBytes(Utf8Char(c) + rest)
    ensures DecodeFirst(Utf8Char(c) + rest) == Some((c, |Utf8Char(c)|))
  {
    var n := c as int;
    if n < 0x80 {
    } else if n < 0x800 {
      DecodeFirstTwo(c, rest);
    } else if n < 0x10000 {
      DecodeFirstThree(c, rest);
    } else {
      DecodeFirstFour(c, rest);
    }
  }

  /** Decoding gives back the encoded text. */
  lemma {:induction false} Utf8RoundTrip(s: string)
    decreases |s|
    ensures Utf8Decode(Utf8Encode(s)) == Some(s)
  {
    if s != [] {
      var tail := Utf8Encode(s[1..]);
      DecodeFirstChar(s[0], tail);
      Utf8RoundTrip(s[1..]);
      var bs := Utf8Encode(s);
      assert bs == Utf8Char(s[0]) + tail;
      assert bs[|Utf8Char(s[0])|..] == tail;
      assert DecodeFirst(bs) == Some((s[0], |Utf8Char(s[0])|));
      assert Utf8Decode(bs) == Some([s[0]] + s[1..]);
      assert [s[0]] + s[1..] == s;
    }
  }

  // ---------------------------------------------------------------------
  // verify_admin

  /** A row of the admin table. */
  datatype AdminUser = AdminUser(id: string, email: string, password: string, role: string)

  /** What a route learns about the admin: no password. */
  datatype AdminInfo = AdminInfo(id: string, email: string, role: string)

  const MISSING_HEADER: HttpError := HttpError(401, "Missing authorization header")
  const INVALID_FORMAT: HttpError := HttpError(401, "Invalid authorization format")
  const INVALID_CREDENTIALS: HttpError := HttpError(401, "Invalid credentials")

  const BASIC_PREFIX: string := "Basic "

  /** `header.split(" ", 1)[1]`: the text after the first space. */
  function AfterFirstSpace(h: string): Option<string> {
    var i := FindFrom(h, " ", 0);
    if i == -1 then None else Some(h[i + 1..])
  }

  /** `email, password = decoded.split(":", 1)`: the parts around the
      first colon. */
  function SplitCredentials(decoded: string): (r: Option<(string, string)>)
    ensures r.Some? ==> ':' !in r.value.0 && decoded == r.value.0 + ":" + r.value.1
  {
    var i := FindFrom(decoded, ":", 0);
    if i == -1 then None
    else
      assert decoded[i..i + 1] == ":";
      assert forall k :: 0 <= k < i ==> decoded[k] != ':' by {
        forall k | 0 <= k < i ensures decoded[k] != ':' {
          assert !OccursAt(decoded, ":", k);
          assert decoded[k..k + 1] == [decoded[k]];
        }
      }
      assert decoded == decoded[..i] + ":" + decoded[i + 1..];
      Some((decoded[..i], decoded[i + 1..]))
  }

  /** The email and password a header carries, or the format error. */
  function Credentials(h: string): Result<(string, string), HttpError> {
    if !StartsWith(h, BASIC_PREFIX) then Err(INVALID_FORMAT)
    else
      var encoded := AfterFirstSpace(h);
      if encoded.None? then Err(INVALID_FORMAT)
      else
        var bytes := B64Decode(encoded.value);
        if bytes.None? then Err(INVALID_FORMAT)
        else
          var decoded := Utf8Decode(bytes.value);
          if decoded.None? then Err(INVALID_FORMAT)
          else
            var pair := SplitCredentials(decoded.value);
            if pair.None? then Err(INVALID_FORMAT) else Ok(pair.value)
  }

  /** verify_admin. */
  function VerifyAdmin(authorization: Option<string>, admins: map<string, AdminUser>): Result<AdminInfo, HttpError> {
    if !Truthy(authorization) then Err(MISSING_HEADER)
    else
      var creds := Credentials(authorization.value);
      if creds.Err? then Err(creds.error)
      else
        var (email, password) := creds.value;
        if email !in admins then Err(INVALID_CREDENTIALS)
        else
          var user := admins[email];
          if user.password != password then Err(INVALID_CREDENTIALS)
          else Ok(AdminInfo(user.id, user.email, user.role))
  }

  /** The header a client sends for `email` and `password`. */
  function BasicHeader(email: string, password: string): string {
    var bytes := Utf8Encode(email + ":" + password);
    BASIC_PREFIX + B64Encode(bytes)
  }

  /** After `Basic ` the encoded part starts at the seventh character. */
  lemma AfterBasicPrefix(h: string)
    requires StartsWith(h, BASIC_PREFIX)
    ensures AfterFirstSpace(h) == Some(h[6..])
  {
    assert h[..6] == BASIC_PREFIX;
    assert h[5] == ' ';
    assert forall k :: 0 <= k < 5 ==> h[k] != ' ';
    FindCharFirst(h, ' ', 0, 5);
  }

  /** The parts around the first colon of `email:password` when the email
      has no colon; the password may hold any number of them. */
  lemma SplitAtEmailColon(email: string, password: string)
    requires ':' !in email
    ensures SplitCredentials(email + ":" + password) == Some((email, password))
  {
    var d := email + ":" + password;
    assert d[|email|] == ':';
    assert forall k :: 0 <= k < |email| ==> d[k] == email[k];
    FindCharFirst(d, ':', 0, |email|);
    assert d[..|email|] == email && d[|email| + 1..] == password;
  }

  /** The header a client builds from its email and password is read back
      as them. */
  lemma CredentialsRoundTrip(email: string, password: string)
    requires ':' !in email
    ensures Credentials(BasicHeader(email, password)) == Ok((email, password))
  {
    var bytes := Utf8Encode(email + ":" + password);
    var h := BasicHeader(email, password);
    assert h[..6] == BASIC_PREFIX;
    AfterBasicPrefix(h);
    assert h[6..] == B64Encode(bytes);
    B64RoundTrip(bytes);
    Utf8RoundTrip(email + ":" + password);
    SplitAtEmailColon(email, password);
  }

  /** An admin is let in with the right header and the right password,
      and is refused for a wrong password or an unknown email. */
  lemma VerifyAdminAccepts(email: string, password: string, admins: map<string, AdminUser>)
    requires ':' !in email
    ensures var r := VerifyAdmin(Some(BasicHeader(email, password)), admins);
      && (email in admins && admins[email].password == password ==>
            r == Ok(AdminInfo(admins[email].id, admins[email].email, admins[email].role)))
      && (email !in admins || admins[email].password != password ==> r == Err(INVALID_CREDENTIALS))
  {
    CredentialsRoundTrip(email, password);
    assert BasicHeader(email, password) != [] by {
      assert |BasicHeader(email, password)| >= 6;
    }
  }

  /** The errors: a missing or empty header, a header that is not Basic or
      does not decode to `email:password`, then an unknown email or a wrong
      password. A success names an admin whose stored password is exactly
      the one sent, and carries no password. */
  lemma VerifyAdminOutcomes(authorization: Option<string>, admins: map<string, AdminUser>)
    ensures !Truthy(authorization) ==> VerifyAdmin(authorization, admins) == Err(MISSING_HEADER)
    ensures Truthy(authorization) && !StartsWith(authorization.value, BASIC_PREFIX) ==>
      VerifyAdmin(authorization, admins) == Err(INVALID_FORMAT)
    ensures Truthy(authorization) && Credentials(authorization.value).Err? ==>
      VerifyAdmin(authorization, admins) == Err(INVALID_FORMAT)
    ensures VerifyAdmin(authorization, admins).Ok? ==>
      Truthy(authorization) && Credentials(authorization.value).Ok?
      && var (email, password) := Credentials(authorization.value).value;
         && email in admins && admins[email].password == password
         && VerifyAdmin(authorization, admins).value
            == AdminInfo(admins[email].id, admins[email].email, admins[email].role)
  {
  }

  /** A header whose encoded part is not base64, or whose decoded text has
      no colon, is a format error. */
  lemma MalformedHeaders(encoded: string, text: string)
    ensures B64Decode(encoded).None? ==> Credentials(BASIC_PREFIX + encoded) == Err(INVALID_FORMAT)
    ensures ':' !in text ==> Credentials(BASIC_PREFIX + B64Encode(Utf8Encode(text))) == Err(INVALID_FORMAT)
  {
    var h := BASIC_PREFIX + encoded;
    assert h[..6] == BASIC_PREFIX;
    AfterBasicPrefix(h);
    assert h[6..] == encoded;
    if ':' !in text {
      var bytes := Utf8Encode(text);
      var h2 := BASIC_PREFIX + B64Encode(bytes);
      assert h2[..6] == BASIC_PREFIX;
      AfterBasicPrefix(h2);
      assert h2[6..] == B64Encode(bytes);
      B64RoundTrip(bytes);
      Utf8RoundTrip(text);
      FindCharNone(text, ':', 0);
    }
  }
}
