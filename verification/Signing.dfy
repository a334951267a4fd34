/** Webhook signatures: framing, header text and verification, for any MAC. */
module Signing {
  import opened Basics
  import opened Decimal

  /** The MAC of section 2 of RFC 2104, as a function of key and message. */
  type Hmac = (seq<Byte>, seq<Byte>) -> seq<Byte>

  // ---- framing ------------------------------------------------------------------------------------

  const DOT: Byte := 46

  function DigitBytes(s: string): (r: seq<Byte>)
    requires AllDigits(s)
    ensures |r| == |s| && forall i :: 0 <= i < |s| ==> r[i] == s[i] as int
  {
    seq(|s|, i requires 0 <= i < |s| => s[i] as int)
  }

  function Frame(ts: nat, body: seq<Byte>): seq<Byte> {
    DigitBytes(Digits(ts)) + [DOT] + body
  }

  lemma DigitsInjective(a: nat, b: nat)
    requires Digits(a) == Digits(b)
    ensures a == b
  {
    DigitsValue(a);
    DigitsValue(b);
  }

  /** The signed bytes determine the timestamp and the body. */
  lemma FrameInjective(ts: nat, body: seq<Byte>, ts': nat, body': seq<Byte>)
    requires Frame(ts, body) == Frame(ts', body')
    ensures ts == ts' && body == body'
  {
    var f, n, n' := Frame(ts, body), |Digits(ts)|, |Digits(ts')|;
    assert f[n] == DOT && f[n'] == DOT;
    assert forall i :: 0 <= i < n ==> f[i] == Digits(ts)[i] as int;
    assert forall i :: 0 <= i < n' ==> f[i] == Digits(ts')[i] as int;
    assert n == n';
    forall i | 0 <= i < n ensures Digits(ts)[i] == Digits(ts')[i] { assert f[i] == Digits(ts)[i] as int; }
    DigitsInjective(ts, ts');
    assert body == f[n + 1..] && body' == f[n + 1..];
  }

  // ---- hex -------------------------------------------------------------------------------------------

  function HexDigit(d: nat): (c: char)
    requires d < 16
    ensures HexValue(c) == Some(d) && c != ','
  {
    if d < 10 then '0' + d as char else 'a' + (d - 10) as char
  }

  /** Either case is accepted. */
  function HexValue(c: char): (v: Option<nat>)
    ensures v.Some? ==> v.value < 16
  {
    if '0' <= c <= '9' then Some(c as int - '0' as int)
    else if 'a' <= c <= 'f' then Some(c as int - 'a' as int + 10)
    else if 'A' <= c <= 'F' then Some(c as int - 'A' as int + 10)
    else None
  }

  function HexEncode(bytes: seq<Byte>): (s: string)
    ensures |s| == 2 * |bytes| && forall i :: 0 <= i < |s| ==> HexValue(s[i]).Some?
  {
    if bytes == [] then "" else [HexDigit(bytes[0] / 16), HexDigit(bytes[0] % 16)] + HexEncode(bytes[1..])
  }

  function HexDecode(s: string): Option<seq<Byte>>
    decreases |s|
  {
    if s == "" then Some([])
    else if |s| == 1 || HexValue(s[0]).None? || HexValue(s[1]).None? then None
    else
      var rest := HexDecode(s[2..]);
      if rest.None? then None else Some([HexByte(HexValue(s[0]).value, HexValue(s[1]).value)] + rest.value)
  }

  function HexByte(high: nat, low: nat): Byte
    requires high < 16 && low < 16
  {
    high * 16 + low
  }

  lemma {:induction false} HexRoundTrip(bytes: seq<Byte>)
    ensures HexDecode(HexEncode(bytes)) == Some(bytes)
  {
    if bytes != [] {
      HexRoundTrip(bytes[1..]);
      var s := HexEncode(bytes);
      assert s[2..] == HexEncode(bytes[1..]);
      assert s[0] == HexDigit(bytes[0] / 16) && s[1] == HexDigit(bytes[0] % 16);
      assert HexByte(bytes[0] / 16, bytes[0] % 16) == bytes[0];
      assert [bytes[0]] + bytes[1..] == bytes;
    }
  }

  // ---- the header --------------------------------------------------------------------------------------

  function Header(ts: nat, digest: seq<Byte>): string {
    "t=" + Digits(ts) + "," + ("v1=" + HexEncode(digest))
  }

  /** Never empty: the text between separators, the empty text included. */
  function Split(s: string): (parts: seq<string>)
    ensures parts != []
  {
    if s == "" then [""]
    else
      var rest := Split(s[1..]);
      if s[0] == ',' then [""] + rest else [[s[0]] + rest[0]] + rest[1..]
  }

  lemma {:induction false} SplitAt(a: string, b: string)
    requires ',' !in a
    ensures Split(a + "," + b) == [a] + Split(b)
  {
    var s := a + "," + b;
    if a == "" {
      assert s[1..] == b;
    } else {
      SplitAt(a[1..], b);
      assert s[1..] == a[1..] + "," + b;
      assert [a[0]] + a[1..] == a;
    }
  }

  lemma {:induction false} SplitNone(a: string)
    requires ',' !in a
    ensures Split(a) == [a]
  {
    if a != "" {
      SplitNone(a[1..]);
      assert [a[0]] + a[1..] == a;
    }
  }

  function Trim(s: string): string
    decreases |s|
  {
    if s != "" && IsSpace(s[0]) then Trim(s[1..])
    else if s != "" && IsSpace(s[|s| - 1]) then Trim(s[..|s| - 1])
    else s
  }

  /** What follows `prefix` in the first part that starts with it. */
  function Field(parts: seq<string>, prefix: string): Option<string> {
    if parts == [] then None
    else if prefix <= Trim(parts[0]) then Some(Trim(parts[0])[|prefix|..])
    else Field(parts[1..], prefix)
  }

  function ParseT(header: string): Option<nat> {
    var field := Field(Split(header), "t=");
    if field.None? then None else ParseU64(field.value)
  }

  function ParseV1(header: string): Option<string> {
    Field(Split(header), "v1=")
  }

  /** Parsing the header that signing produces gives back what went in. */
  lemma HeaderRoundTrip(ts: nat, digest: seq<Byte>)
    requires ts <= U64_MAX
    ensures ParseT(Header(ts, digest)) == Some(ts)
    ensures ParseV1(Header(ts, digest)).Some? && HexDecode(ParseV1(Header(ts, digest)).value) == Some(digest)
  {
    var first, second := "t=" + Digits(ts), "v1=" + HexEncode(digest);
    assert forall i :: 0 <= i < |Digits(ts)| ==> first[2 + i] == Digits(ts)[i];
    forall i | 0 <= i < |first| ensures first[i] != ',' && !IsSpace(first[i]) {
      if i >= 2 { assert IsDigit(first[i]); }
    }
    forall i | 0 <= i < |second| ensures second[i] != ',' && !IsSpace(second[i]) {
      if i >= 3 { assert second[i] == HexEncode(digest)[i - 3]; }
    }
    SplitAt(first, second);
    SplitNone(second);
    assert Split(Header(ts, digest)) == [first, second];
    assert Trim(first) == first && Trim(second) == second;
    assert !("v1=" <= first) by { assert first[0] == 't'; }
    assert Field([first, second], "t=") == Some(first[2..]) && first[2..] == Digits(ts);
    assert [first, second][1..] == [second];
    assert Field([first, second], "v1=") == Some(second[3..]) && second[3..] == HexEncode(digest);
    ParseDigits(ts);
    HexRoundTrip(digest);
  }

  // ---- signing and verification ------------------------------------------------------------------------

  /** A MAC being fed. */
  class Mac {
    const hmac: Hmac
    const key: seq<Byte>
    var fed: seq<Byte>

    constructor (hmac: Hmac, key: seq<Byte>)
      ensures this.hmac == hmac && this.key == key && fed == []
    {
      this.hmac, this.key, fed := hmac, key, [];
    }

    method Update(bytes: seq<Byte>)
      modifies this
      ensures fed == old(fed) + bytes
    {
      fed := fed + bytes;
    }

    function Finish(): seq<Byte>
      reads this
    {
      hmac(key, fed)
    }
  }

  method Sign(hmac: Hmac, secret: seq<Byte>, ts: nat, body: seq<Byte>) returns (header: string)
    ensures header == Header(ts, hmac(secret, Frame(ts, body)))
  {
    var mac := new Mac(hmac, secret);
    mac.Update(DigitBytes(Digits(ts)) + [DOT]);
    mac.Update(body);
    assert mac.fed == Frame(ts, body);
    header := "t=" + Digits(ts) + ",v1=" + HexEncode(mac.Finish());
    assert header == Header(ts, mac.Finish());
  }

  predicate Verified(hmac: Hmac, secret: seq<Byte>, ts: nat, body: seq<Byte>, header: string) {
    ParseV1(header).Some? && HexDecode(ParseV1(header).value) == Some(hmac(secret, Frame(ts, body)))
  }

  method Verify(hmac: Hmac, secret: seq<Byte>, ts: nat, body: seq<Byte>, header: string) returns (ok: bool)
    ensures ok <==> Verified(hmac, secret, ts, body, header)
  {
    var digest := ParseV1(header);
    if digest.None? { return false; }
    var decoded := HexDecode(digest.value);
    if decoded.None? { return false; }
    var mac := new Mac(hmac, secret);
    mac.Update(DigitBytes(Digits(ts)) + [DOT]);
    mac.Update(body);
    assert mac.fed == Frame(ts, body);
    ok := mac.Finish() == decoded.value;
  }

  /** `verify_header`; the age of a timestamp in the future saturates at 0. */
  predicate Accepted(hmac: Hmac, secret: seq<Byte>, body: seq<Byte>, header: string, now: nat, maxAge: nat) {
    var ts := ParseT(header);
    ts.Some? && Max(now - ts.value, 0) <= maxAge && Verified(hmac, secret, ts.value, body, header)
  }

  /** A receiver accepts a signed request, with any key and body, exactly when it is fresh and the MACs agree. */
  lemma AcceptedExactly(hmac: Hmac, secret: seq<Byte>, ts: nat, body: seq<Byte>, key: seq<Byte>, received: seq<Byte>,
                        now: nat, maxAge: nat)
    requires ts <= U64_MAX
    ensures Accepted(hmac, key, received, Header(ts, hmac(secret, Frame(ts, body))), now, maxAge) <==>
              now <= ts + maxAge && hmac(key, Frame(ts, received)) == hmac(secret, Frame(ts, body))
  {
    HeaderRoundTrip(ts, hmac(secret, Frame(ts, body)));
  }

  /** The holder of the key accepts what was signed for as long as it is fresh. */
  lemma OwnAccepted(hmac: Hmac, secret: seq<Byte>, ts: nat, body: seq<Byte>, now: nat, maxAge: nat)
    requires ts <= U64_MAX
    ensures Accepted(hmac, secret, body, Header(ts, hmac(secret, Frame(ts, body))), now, maxAge) <==> now <= ts + maxAge
  {
    AcceptedExactly(hmac, secret, ts, body, secret, body, now, maxAge);
  }

  /** Accepting a digest for another timestamp or body takes two different messages of equal MAC. */
  lemma OtherMessageCollides(hmac: Hmac, secret: seq<Byte>, ts: nat, body: seq<Byte>, header: string,
                             received: seq<Byte>, now: nat, maxAge: nat)
    requires Accepted(hmac, secret, received, header, now, maxAge)
    requires HexDecode(ParseV1(header).value) == Some(hmac(secret, Frame(ts, body)))
    requires ParseT(header) != Some(ts) || received != body
    ensures var message := Frame(ParseT(header).value, received);
            message != Frame(ts, body) && hmac(secret, message) == hmac(secret, Frame(ts, body))
  {
    if Frame(ParseT(header).value, received) == Frame(ts, body) {
      FrameInjective(ParseT(header).value, received, ts, body);
    }
  }
}
