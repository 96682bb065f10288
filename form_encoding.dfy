/**
 * The login request of src/services/auth/index.ts: the record is sent as an
 * `application/x-www-form-urlencoded` body, `encodeURIComponent(key)=encodeURIComponent(value)`
 * per entry, joined with `&`. `encodeURIComponent` and its inverse `decodeURIComponent` are
 * modelled as ECMA-262 5.1, section 15.1.3.4 and section 15.1.3.2 define them, over strings
 * of Unicode scalar values (UTF-8 octets, each written `%XY` with upper-case hex digits).
 */
module FormEncoding {
  import opened Wrappers
  import opened OrderedMaps
  import opened Json

  // ---------------------------------------------------------------------------------------
  // encodeURIComponent
  // ---------------------------------------------------------------------------------------

  /** The characters `encodeURIComponent` leaves alone (uriUnescaped in ECMA-262 5.1, section
      15.1.3): ASCII letters, decimal digits and `- _ . ! ~ * ' ( )`. */
  predicate IsUnescaped(c: char) {
    ('a' <= c <= 'z') || ('A' <= c <= 'Z') || ('0' <= c <= '9')
    || c == '-' || c == '_' || c == '.' || c == '!' || c == '~' || c == '*' || c == '\'' || c == '(' || c == ')'
  }

  function HexDigit(d: nat): (c: char)
    requires d < 16
    ensures ('0' <= c <= '9') || ('A' <= c <= 'F')
  {
    if d < 10 then ('0' as int + d) as char else ('A' as int + d - 10) as char
  }

  /** The value of a hexadecimal digit of either case. */
  function HexValue(c: char): (r: Option<nat>)
    ensures r.Some? ==> r.value < 16
  {
    if '0' <= c <= '9' then Some(c as int - '0' as int)
    else if 'A' <= c <= 'F' then Some(c as int - 'A' as int + 10)
    else if 'a' <= c <= 'f' then Some(c as int - 'a' as int + 10)
    else None
  }

  lemma HexRoundTrip(d: nat)
    requires d < 16
    ensures HexValue(HexDigit(d)) == Some(d)
  {
  }

  /** One octet written as `%XY`. */
  function PercentOctet(b: nat): (r: string)
    requires b < 256
    ensures |r| == 3 && r[0] == '%'
    ensures forall i :: 0 <= i < |r| ==> IsUnescaped(r[i]) || r[i] == '%'
  {
    ['%', HexDigit(b / 16), HexDigit(b % 16)]
  }

  /** The UTF-8 octets of one Unicode scalar value (RFC 3629, section 3). */
  function Utf8(c: char): (r: seq<nat>)
    ensures 1 <= |r| <= 4
    ensures forall i :: 0 <= i < |r| ==> r[i] < 256
  {
    var cp := c as int;
    if cp < 0x80 then [cp]
    else if cp < 0x800 then [0xC0 + cp / 64, 0x80 + cp % 64]
    else if cp < 0x10000 then [0xE0 + cp / 4096, 0x80 + (cp / 64) % 64, 0x80 + cp % 64]
    else [0xF0 + cp / 262144, 0x80 + (cp / 4096) % 64, 0x80 + (cp / 64) % 64, 0x80 + cp % 64]
  }

  function PercentOctets(bs: seq<nat>): (r: string)
    requires forall i :: 0 <= i < |bs| ==> bs[i] < 256
    ensures |r| == 3 * |bs|
    ensures forall i :: 0 <= i < |r| ==> IsUnescaped(r[i]) || r[i] == '%'
  {
    if bs == [] then [] else PercentOctet(bs[0]) + PercentOctets(bs[1..])
  }

  function EncodeChar(c: char): (r: string)
    ensures IsUnescaped(c) ==> r == [c]
    ensures !IsUnescaped(c) ==> |r| >= 3 && r[0] == '%'
    ensures forall i :: 0 <= i < |r| ==> IsUnescaped(r[i]) || r[i] == '%'
  {
    if IsUnescaped(c) then [c] else PercentOctets(Utf8(c))
  }

  /** `encodeURIComponent(s)`. Its output holds only unescaped characters and `%`, so never
      `=` or `&`. */
  function EncodeUriComponent(s: string): (r: string)
    ensures forall i :: 0 <= i < |r| ==> IsUnescaped(r[i]) || r[i] == '%'
    ensures forall i :: 0 <= i < |r| ==> r[i] != '=' && r[i] != '&'
    decreases |s|
  {
    if s == [] then [] else EncodeChar(s[0]) + EncodeUriComponent(s[1..])
  }

  // ---------------------------------------------------------------------------------------
  // decodeURIComponent
  // ---------------------------------------------------------------------------------------

  function Prepend(c: char, r: Option<string>): Option<string> {
    match r
    case Some(t) => Some([c] + t)
    case None => None
  }

  /** The octet written by the `%XY` that `s` starts with. */
  function ReadOctet(s: string): (r: Option<nat>)
    ensures r.Some? ==> |s| >= 3 && r.value < 256
  {
    if |s| < 3 || s[0] != '%' then None
    else match (HexValue(s[1]), HexValue(s[2]))
      case (Some(h), Some(l)) => Some(h * 16 + l)
      case _ => None
  }

  /** How many octets a UTF-8 sequence with this leading octet has; 0 when it cannot lead. */
  function LeadLength(b: nat): nat {
    if 0xC0 <= b < 0xE0 then 2
    else if 0xE0 <= b < 0xF0 then 3
    else if 0xF0 <= b < 0xF8 then 4
    else 0
  }

  /** `n` continuation octets (10xxxxxx), each written `%XY`, at the start of `s`. */
  function ReadContinuations(s: string, n: nat): (r: Option<seq<nat>>)
    ensures r.Some? ==> |r.value| == n && |s| >= 3 * n
    ensures r.Some? ==> forall i :: 0 <= i < n ==> 0x80 <= r.value[i] < 0xC0
    decreases n
  {
    if n == 0 then Some([])
    else match ReadOctet(s)
      case None => None
      case Some(b) =>
        if !(0x80 <= b < 0xC0) then None
        else match ReadContinuations(s[3..], n - 1)
          case None => None
          case Some(rest) => Some([b] + rest)
  }

  predicate IsScalar(cp: int) {
    (0 <= cp < 0xD800) || (0xE000 <= cp < 0x110000)
  }

  /** The code point of a multi-octet UTF-8 sequence, rejecting overlong forms, surrogates
      and values past U+10FFFF, as RFC 3629 requires. */
  function Utf8Value(lead: nat, conts: seq<nat>): (r: Option<int>)
    requires 0xC0 <= lead < 0xF8 && |conts| == LeadLength(lead) - 1
    requires forall i :: 0 <= i < |conts| ==> 0x80 <= conts[i] < 0xC0
    ensures r.Some? ==> IsScalar(r.value)
  {
    if |conts| == 1 then
      var cp := (lead - 0xC0) * 64 + (conts[0] - 0x80);
      if cp >= 0x80 then Some(cp) else None
    else if |conts| == 2 then
      var cp := (lead - 0xE0) * 4096 + (conts[0] - 0x80) * 64 + (conts[1] - 0x80);
      if cp >= 0x800 && IsScalar(cp) then Some(cp) else None
    else
      var cp := (lead - 0xF0) * 262144 + (conts[0] - 0x80) * 4096 + (conts[1] - 0x80) * 64 + (conts[2] - 0x80);
      if cp >= 0x10000 && IsScalar(cp) then Some(cp) else None
  }

  /** `decodeURIComponent(s)`; None where it throws URIError. */
  function DecodeUriComponent(s: string): (r: Option<string>)
    decreases |s|
  {
    if s == [] then Some([])
    else if s[0] != '%' then Prepend(s[0], DecodeUriComponent(s[1..]))
    else match ReadOctet(s)
      case None => None
      case Some(b) =>
        if b < 0x80 then Prepend(b as char, DecodeUriComponent(s[3..]))
        else if LeadLength(b) == 0 then None
        else match ReadContinuations(s[3..], LeadLength(b) - 1)
          case None => None
          case Some(conts) =>
            match Utf8Value(b, conts)
            case None => None
            case Some(cp) => Prepend(cp as char, DecodeUriComponent(s[3 * LeadLength(b)..]))
  }

  lemma ReadPercentOctet(b: nat, t: string)
    requires b < 256
    ensures ReadOctet(PercentOctet(b) + t) == Some(b)
  {
    HexRoundTrip(b / 16);
    HexRoundTrip(b % 16);
  }

  lemma {:induction false} ReadPercentContinuations(bs: seq<nat>, t: string)
    requires forall i :: 0 <= i < |bs| ==> 0x80 <= bs[i] < 0xC0
    ensures ReadContinuations(PercentOctets(bs) + t, |bs|) == Some(bs)
    ensures (PercentOctets(bs) + t)[3 * |bs|..] == t
    decreases |bs|
  {
    if bs != [] {
      var s := PercentOctets(bs) + t;
      assert s == PercentOctet(bs[0]) + (PercentOctets(bs[1..]) + t);
      ReadPercentOctet(bs[0], PercentOctets(bs[1..]) + t);
      assert s[3..] == PercentOctets(bs[1..]) + t;
      ReadPercentContinuations(bs[1..], t);
      assert [bs[0]] + bs[1..] == bs;
    }
  }

  lemma Utf8Two(cp: int)
    requires 0x80 <= cp < 0x800
    ensures LeadLength(0xC0 + cp / 64) == 2
    ensures (0xC0 + cp / 64 - 0xC0) * 64 + (0x80 + cp % 64 - 0x80) == cp
  {
  }

  lemma Split64(x: int, q: int, r: int)
    requires x == q * 64 + r && 0 <= r < 64
    ensures x / 64 == q && x % 64 == r
  {
  }

  lemma Split4096(x: int, q: int, r: int)
    requires x == q * 4096 + r && 0 <= r < 4096
    ensures x / 4096 == q && x % 4096 == r
  {
  }

  lemma Utf8Three(cp: int)
    requires 0x800 <= cp < 0x10000
    ensures LeadLength(0xE0 + cp / 4096) == 3
    ensures (cp / 4096) * 4096 + ((cp / 64) % 64) * 64 + cp % 64 == cp
  {
    var a, b := cp / 4096, cp % 4096;
    var q, r := b / 64, b % 64;
    Split64(cp, a * 64 + q, r);
    Split64(a * 64 + q, a, q);
  }

  lemma Utf8Four(cp: int)
    requires 0x10000 <= cp < 0x110000
    ensures LeadLength(0xF0 + cp / 262144) == 4
    ensures (cp / 262144) * 262144 + ((cp / 4096) % 64) * 4096 + ((cp / 64) % 64) * 64 + cp % 64 == cp
  {
    var a, b := cp / 262144, cp % 262144;
    var c, d := b / 4096, b % 4096;
    var e, f := d / 64, d % 64;
    Split4096(cp, a * 64 + c, d);
    Split64(a * 64 + c, a, c);
    Split64(cp, a * 4096 + c * 64 + e, f);
    Split64(a * 4096 + c * 64 + e, a * 64 + c, e);
  }

  /** The UTF-8 octets of a character that needs more than one. */
  lemma Utf8Shape(c: char)
    requires c as int >= 0x80
    ensures var u := Utf8(c);
      && LeadLength(u[0]) == |u|
      && (forall i :: 1 <= i < |u| ==> 0x80 <= u[i] < 0xC0)
      && Utf8Value(u[0], u[1..]) == Some(c as int)
  {
    var cp := c as int;
    if cp < 0x800 {
      Utf8Two(cp);
    } else if cp < 0x10000 {
      Utf8Three(cp);
    } else {
      Utf8Four(cp);
    }
  }

  /** Decoding undoes the encoding of one character, whatever follows it. */
  lemma DecodeEncodeChar(c: char, t: string)
    ensures DecodeUriComponent(EncodeChar(c) + t) == Prepend(c, DecodeUriComponent(t))
  {
    var s := EncodeChar(c) + t;
    if IsUnescaped(c) {
      assert s[1..] == t;
    } else {
      var u := Utf8(c);
      var enc := PercentOctets(u);
      assert enc == PercentOctet(u[0]) + PercentOctets(u[1..]);
      assert s == PercentOctet(u[0]) + (PercentOctets(u[1..]) + t);
      ReadPercentOctet(u[0], PercentOctets(u[1..]) + t);
      if c as int < 0x80 {
        assert u == [c as int];
        assert s[3..] == t;
        assert (c as int) as char == c;
      } else {
        Utf8Shape(c);
        assert s[3..] == PercentOctets(u[1..]) + t;
        ReadPercentContinuations(u[1..], t);
        assert s[3 * LeadLength(u[0])..] == t;
      }
    }
  }

  /** `decodeURIComponent(encodeURIComponent(s)) == s`. */
  lemma {:induction false} DecodeEncode(s: string)
    ensures DecodeUriComponent(EncodeUriComponent(s)) == Some(s)
    decreases |s|
  {
    if s != [] {
      DecodeEncode(s[1..]);
      DecodeEncodeChar(s[0], EncodeUriComponent(s[1..]));
      assert [s[0]] + s[1..] == s;
    }
  }

  // ---------------------------------------------------------------------------------------
  // The login body and request (src/services/auth/index.ts:25-42)
  // ---------------------------------------------------------------------------------------

  /** `arr.join(sep)` over strings. */
  function Join(segs: seq<string>, sep: char): (r: string)
    ensures segs == [] ==> r == []
    ensures segs != [] ==> |r| >= |segs[0]| && r[..|segs[0]|] == segs[0]
    decreases |segs|
  {
    if segs == [] then []
    else if |segs| == 1 then segs[0]
    else segs[0] + [sep] + Join(segs[1..], sep)
  }

  /** `s.split(sep)`; note that `"".split(sep)` is `[""]`. */
  function Split(s: string, sep: char): (r: seq<string>)
    ensures |r| >= 1
    decreases |s|
  {
    if s == [] then [[]]
    else
      var rest := Split(s[1..], sep);
      if s[0] == sep then [[]] + rest else [[s[0]] + rest[0]] + rest[1..]
  }

  /** How often `c` occurs in `s`. */
  function Occurrences(s: string, c: char): (n: nat)
    ensures n <= |s|
  {
    if s == [] then 0 else (if s[0] == c then 1 else 0) + Occurrences(s[1..], c)
  }

  /** One `key=value` segment. */
  function EncodePair(key: string, value: string): (r: string)
    ensures Occurrences(r, '=') == 1
    ensures Split(r, '=') == [EncodeUriComponent(key), EncodeUriComponent(value)]
  {
    var k, v := EncodeUriComponent(key), EncodeUriComponent(value);
    OccurrencesNone(k, '=');
    OccurrencesNone(v, '=');
    OccurrencesAppend(k + "=", v, '=');
    OccurrencesAppend(k, "=", '=');
    SplitAt(k, '=', v);
    SplitNone(v, '=');
    k + "=" + v
  }

  /** The request body: every entry of the record, in entry order, as
      `encodeURIComponent(key)=encodeURIComponent(value)`, joined with `&`. */
  function LoginBody(auth: seq<(string, string)>): (body: string)
    ensures auth == [] <==> body == []
  {
    var segs := seq(|auth|, i requires 0 <= i < |auth| => EncodePair(auth[i].0, auth[i].1));
    assert auth != [] ==> |segs[0]| >= 1;
    assert auth != [] ==> Join(segs, '&') != [];
    Join(segs, '&')
  }

  lemma {:induction false} OccurrencesAppend(a: string, b: string, c: char)
    ensures Occurrences(a + b, c) == Occurrences(a, c) + Occurrences(b, c)
    decreases |a|
  {
    if a == [] {
      assert a + b == b;
    } else {
      assert (a + b)[1..] == a[1..] + b;
      OccurrencesAppend(a[1..], b, c);
    }
  }

  lemma {:induction false} OccurrencesNone(s: string, c: char)
    requires forall i :: 0 <= i < |s| ==> s[i] != c
    ensures Occurrences(s, c) == 0
    decreases |s|
  {
    if s != [] {
      OccurrencesNone(s[1..], c);
    }
  }

  /** Joining `n` segments free of the separator puts exactly `n - 1` separators in. */
  lemma {:induction false} JoinOccurrences(segs: seq<string>, sep: char)
    requires segs != []
    requires forall i, j :: 0 <= i < |segs| && 0 <= j < |segs[i]| ==> segs[i][j] != sep
    ensures Occurrences(Join(segs, sep), sep) == |segs| - 1
    decreases |segs|
  {
    OccurrencesNone(segs[0], sep);
    if |segs| > 1 {
      JoinOccurrences(segs[1..], sep);
      OccurrencesAppend(segs[0] + [sep], Join(segs[1..], sep), sep);
      OccurrencesAppend(segs[0], [sep], sep);
    }
  }

  /** Splitting a separator-free string gives it back whole. */
  lemma {:induction false} SplitNone(s: string, sep: char)
    requires forall i :: 0 <= i < |s| ==> s[i] != sep
    ensures Split(s, sep) == [s]
    decreases |s|
  {
    if s != [] {
      SplitNone(s[1..], sep);
      assert [s[0]] + s[1..] == s;
    }
  }

  /** Splitting at the first separator. */
  lemma {:induction false} SplitAt(a: string, sep: char, b: string)
    requires forall i :: 0 <= i < |a| ==> a[i] != sep
    ensures Split(a + [sep] + b, sep) == [a] + Split(b, sep)
    decreases |a|
  {
    if a == [] {
      assert a + [sep] + b == [sep] + b;
      assert ([sep] + b)[1..] == b;
    } else {
      SplitAt(a[1..], sep, b);
      assert (a + [sep] + b)[1..] == a[1..] + [sep] + b;
      assert [a[0]] + a[1..] == a;
    }
  }

  /** `split` undoes `join` when no segment holds the separator. */
  lemma {:induction false} SplitJoin(segs: seq<string>, sep: char)
    requires segs != []
    requires forall i, j :: 0 <= i < |segs| && 0 <= j < |segs[i]| ==> segs[i][j] != sep
    ensures Split(Join(segs, sep), sep) == segs
    decreases |segs|
  {
    if |segs| == 1 {
      SplitNone(segs[0], sep);
    } else {
      SplitJoin(segs[1..], sep);
      SplitAt(segs[0], sep, Join(segs[1..], sep));
      assert [segs[0]] + segs[1..] == segs;
    }
  }

  /** The `&`-segments of the body are the encoded pairs, one per entry, in entry order;
      an empty record sends an empty body, and n entries send n - 1 `&` separators. */
  lemma LoginBodySegments(auth: seq<(string, string)>)
    ensures auth == [] ==> LoginBody(auth) == ""
    ensures auth != [] ==> Occurrences(LoginBody(auth), '&') == |auth| - 1
    ensures auth != [] ==> Split(LoginBody(auth), '&')
                           == seq(|auth|, i requires 0 <= i < |auth| => EncodePair(auth[i].0, auth[i].1))
  {
    var segs := seq(|auth|, i requires 0 <= i < |auth| => EncodePair(auth[i].0, auth[i].1));
    if auth != [] {
      forall i, j | 0 <= i < |segs| && 0 <= j < |segs[i]| ensures segs[i][j] != '&' {
        var k, v := EncodeUriComponent(auth[i].0), EncodeUriComponent(auth[i].1);
        assert segs[i] == k + "=" + v;
        if j < |k| { assert segs[i][j] == k[j]; }
        else if j > |k| { assert segs[i][j] == v[j - |k| - 1]; }
      }
      JoinOccurrences(segs, '&');
      SplitJoin(segs, '&');
    }
  }

  /** How a form-urlencoded body is read back: split on `&`, then each segment on its `=`,
      then percent-decode both halves. */
  function ParsePair(seg: string): Option<(string, string)> {
    var parts := Split(seg, '=');
    if |parts| != 2 then None
    else match (DecodeUriComponent(parts[0]), DecodeUriComponent(parts[1]))
      case (Some(k), Some(v)) => Some((k, v))
      case _ => None
  }

  function ParsePairs(segs: seq<string>): Option<seq<(string, string)>>
    decreases |segs|
  {
    if segs == [] then Some([])
    else match (ParsePair(segs[0]), ParsePairs(segs[1..]))
      case (Some(p), Some(rest)) => Some([p] + rest)
      case _ => None
  }

  function ParseForm(body: string): Option<seq<(string, string)>> {
    if body == "" then Some([]) else ParsePairs(Split(body, '&'))
  }

  lemma ParsePairEncoded(key: string, value: string)
    ensures ParsePair(EncodePair(key, value)) == Some((key, value))
  {
    DecodeEncode(key);
    DecodeEncode(value);
  }

  lemma {:induction false} ParsePairsEncoded(auth: seq<(string, string)>)
    ensures ParsePairs(seq(|auth|, i requires 0 <= i < |auth| => EncodePair(auth[i].0, auth[i].1))) == Some(auth)
    decreases |auth|
  {
    var segs := seq(|auth|, i requires 0 <= i < |auth| => EncodePair(auth[i].0, auth[i].1));
    if auth != [] {
      var tail := seq(|auth[1..]|, i requires 0 <= i < |auth[1..]| => EncodePair(auth[1..][i].0, auth[1..][i].1));
      assert segs[1..] == tail;
      ParsePairsEncoded(auth[1..]);
      assert segs[0] == EncodePair(auth[0].0, auth[0].1);
      ParsePairEncoded(auth[0].0, auth[0].1);
      assert ParsePair(segs[0]) == Some(auth[0]);
      assert [auth[0]] + auth[1..] == auth;
    }
  }

  /** Round trip: reading the body back recovers every entry, in order. */
  lemma LoginBodyRoundTrip(auth: seq<(string, string)>)
    ensures ParseForm(LoginBody(auth)) == Some(auth)
  {
    LoginBodySegments(auth);
    ParsePairsEncoded(auth);
  }

  const LoginUrl := "/api/login"
  const FormContentType := "application/x-www-form-urlencoded;charset=UTF-8"

  /** The options `login` passes before the caller's options are spread over them. */
  function LoginDefaults(auth: seq<(string, string)>): (r: seq<(string, Json)>)
    ensures UniqueKeys(r) && KeySet(r) == {"method", "headers", "data"}
  {
    var d := [ ("method", JStr("POST")),
               ("headers", JObj([("Content-Type", JStr(FormContentType))])),
               ("data", JStr(LoginBody(auth))) ];
    assert "method"[0] != "headers"[0] && "method"[0] != "data"[0] && "headers"[0] != "data"[0];
    assert KeySet(d) == {d[0].0, d[1].0, d[2].0};
    d
  }

  /** `login(auth, options)`: a request to `/api/login` whose options are the defaults with
      `...(options || {})` spread last. */
  function Login(auth: seq<(string, string)>, options: Option<seq<(string, Json)>>): (r: (string, seq<(string, Json)>))
    ensures r.0 == LoginUrl
  {
    (LoginUrl, PutAll(LoginDefaults(auth), options.GetOr([])))
  }

  /** Every option the caller passes overrides the default of the same name (its last value
      wins); the defaults survive everywhere else. */
  lemma LoginOptions(auth: seq<(string, string)>, options: Option<seq<(string, Json)>>, name: string)
    ensures var opts := options.GetOr([]);
      Get(Login(auth, options).1, name)
        == if name in KeySet(opts) then LastValue(opts, name) else Get(LoginDefaults(auth), name)
  {
    GetPutAll(LoginDefaults(auth), options.GetOr([]), name);
  }

  /** Without caller options the request is a form-encoded POST of the login body. */
  lemma LoginWithoutOptions(auth: seq<(string, string)>)
    ensures var o := Login(auth, None).1;
      && Get(o, "method") == Some(JStr("POST"))
      && Get(o, "headers") == Some(JObj([("Content-Type", JStr(FormContentType))]))
      && Get(o, "data") == Some(JStr(LoginBody(auth)))
  {
    var o := Login(auth, None).1;
    assert o == LoginDefaults(auth);
    assert "method"[0] != "headers"[0] && "method"[0] != "data"[0] && "headers"[0] != "data"[0];
    assert UniqueKeys(o);
    assert o[1].0 == "headers" && o[2].0 == "data";
  }
}
