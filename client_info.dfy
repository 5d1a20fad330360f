/**
 * Best-effort client metadata taken from the request headers by the redirect
 * handler (src/handlers.rs): the user agent, and the client address as the
 * first hop of `x-forwarded-for`, trimmed, or "unknown".
 */
module ClientInfo {

  import opened Wrappers

  type Byte = b: int | 0 <= b < 256

  /** The raw bytes of one header value. */
  type HeaderValue = seq<Byte>

  /** Request headers by lower-case name; a name maps to its first value,
      which is the one `HeaderMap::get` returns. */
  type HeaderMap = map<string, HeaderValue>

  const UserAgentHeader := "user-agent"
  const ForwardedForHeader := "x-forwarded-for"

  /** The address recorded when no usable forwarded-for header is present. */
  const UnknownIp := "unknown"

  /** The bytes `HeaderValue::to_str` accepts: visible ASCII and tab. */
  predicate IsVisibleAscii(b: Byte)
  {
    32 <= b < 127 || b == 9
  }

  /** `HeaderValue::to_str().ok()`: the value as text when every byte is
      visible ASCII, and nothing otherwise. */
  function ToStr(h: HeaderValue): (r: Option<string>)
    ensures r.Some? <==> forall i :: 0 <= i < |h| ==> IsVisibleAscii(h[i])
    ensures r.Some? ==> |r.value| == |h| && forall i :: 0 <= i < |h| ==> r.value[i] as int == h[i]
  {
    if forall i :: 0 <= i < |h| ==> IsVisibleAscii(h[i]) then
      Some(seq(|h|, i requires 0 <= i < |h| => h[i] as char))
    else
      None
  }

  /** The bytes of a string of code points below 256. */
  function Bytes(s: string): (h: HeaderValue)
    requires forall i :: 0 <= i < |s| ==> s[i] as int < 256
    ensures |h| == |s| && forall i :: 0 <= i < |s| ==> h[i] == s[i] as int
  {
    seq(|s|, i requires 0 <= i < |s| => s[i] as int)
  }

  /** A header value sent as visible ASCII text is read back as that text. */
  lemma ToStrRoundTrip(s: string)
    requires forall i :: 0 <= i < |s| ==> s[i] as int < 256 && IsVisibleAscii(s[i] as int)
    ensures ToStr(Bytes(s)) == Some(s)
  {
    var r := ToStr(Bytes(s));
    assert r.Some?;
    assert r.value == s;
  }

  /** `headers.get(name).and_then(|h| h.to_str().ok())`. */
  function HeaderText(headers: HeaderMap, name: string): (r: Option<string>)
    ensures r.Some? ==> name in headers && ToStr(headers[name]) == r
    ensures name in headers && ToStr(headers[name]).Some? ==> r.Some?
  {
    if name in headers then ToStr(headers[name]) else None
  }

  /** `char::is_whitespace`: the Unicode White_Space characters. */
  predicate IsWhitespace(c: char)
  {
    || ('\t' <= c <= '\r')
    || c == ' '
    || c == '\U{85}'
    || c == '\U{A0}'
    || c == '\U{1680}'
    || ('\U{2000}' <= c <= '\U{200A}')
    || c == '\U{2028}'
    || c == '\U{2029}'
    || c == '\U{202F}'
    || c == '\U{205F}'
    || c == '\U{3000}'
  }

  predicate AllWhitespace(s: string)
  {
    forall i :: 0 <= i < |s| ==> IsWhitespace(s[i])
  }

  /** Neither end of `s` is whitespace. */
  predicate IsTrimmed(s: string)
  {
    s == [] || (!IsWhitespace(s[0]) && !IsWhitespace(s[|s| - 1]))
  }

  /** `str::trim_start`: drops the longest all-whitespace prefix. */
  function TrimStart(s: string): (r: string)
    ensures |r| <= |s| && r == s[|s| - |r|..]
    ensures AllWhitespace(s[..|s| - |r|])
    ensures r == [] || !IsWhitespace(r[0])
  {
    if s == [] || !IsWhitespace(s[0]) then s else TrimStart(s[1..])
  }

  /** `str::trim_end`: drops the longest all-whitespace suffix. */
  function TrimEnd(s: string): (r: string)
    ensures r <= s
    ensures AllWhitespace(s[|r|..])
    ensures r == [] || !IsWhitespace(r[|r| - 1])
  {
    if s == [] || !IsWhitespace(s[|s| - 1]) then s
    else
      var r := TrimEnd(s[..|s| - 1]);
      assert s[|r|..] == s[..|s| - 1][|r|..] + [s[|s| - 1]];
      r
  }

  /** `str::trim`. */
  function Trim(s: string): (r: string)
    ensures IsTrimmed(r)
  {
    TrimEnd(TrimStart(s))
  }

  /** `s.split(',').next()`: the text before the first comma, or all of `s`. */
  function FirstSegment(s: string): (r: string)
    ensures r <= s && ',' !in r
    ensures |r| < |s| ==> s[|r|] == ','
  {
    if s == [] || s[0] == ',' then [] else [s[0]] + FirstSegment(s[1..])
  }

  /** The first hop of a forwarded-for chain, trimmed. */
  function FirstHop(s: string): (r: string)
    ensures ',' !in r && IsTrimmed(r)
  {
    var segment := FirstSegment(s);
    var r := Trim(segment);
    assert forall c :: c in r ==> c in segment by {
      forall c | c in r ensures c in segment {
        var k :| 0 <= k < |r| && r[k] == c;
        assert r[k] == TrimStart(segment)[k];
      }
    }
    r
  }

  /** The client address stored with a visit. */
  function ClientIp(headers: HeaderMap): (r: string)
    ensures HeaderText(headers, ForwardedForHeader).None? ==> r == UnknownIp
    ensures HeaderText(headers, ForwardedForHeader).Some? ==> r == FirstHop(HeaderText(headers, ForwardedForHeader).value)
    ensures ',' !in r && IsTrimmed(r)
  {
    match HeaderText(headers, ForwardedForHeader)
    case Some(s) => FirstHop(s)
    case None => UnknownIp
  }

  /** The user agent stored with a visit: absent when the header is missing
      or is not visible ASCII. */
  function UserAgent(headers: HeaderMap): (r: Option<string>)
    ensures r.Some? <==> UserAgentHeader in headers && forall i :: 0 <= i < |headers[UserAgentHeader]| ==> IsVisibleAscii(headers[UserAgentHeader][i])
    ensures r.Some? ==> |r.value| == |headers[UserAgentHeader]|
    ensures r.Some? ==> forall i :: 0 <= i < |r.value| ==> r.value[i] as int == headers[UserAgentHeader][i]
  {
    HeaderText(headers, UserAgentHeader)
  }

  /** Trimming the start of whitespace followed by a part that does not begin
      with whitespace leaves that part. */
  lemma {:induction false} TrimStartAfterWhitespace(pre: string, s: string)
    requires AllWhitespace(pre)
    requires s == [] || !IsWhitespace(s[0])
    ensures TrimStart(pre + s) == s
  {
    if pre == [] {
      assert pre + s == s;
    } else {
      assert (pre + s)[1..] == pre[1..] + s;
      TrimStartAfterWhitespace(pre[1..], s);
    }
  }

  /** Trimming the end of a part that does not end with whitespace followed by
      whitespace leaves that part. */
  lemma {:induction false} TrimEndBeforeWhitespace(s: string, post: string)
    requires AllWhitespace(post)
    requires s == [] || !IsWhitespace(s[|s| - 1])
    ensures TrimEnd(s + post) == s
  {
    if post == [] {
      assert s + post == s;
    } else {
      var shorter := post[..|post| - 1];
      assert (s + post)[..|s + post| - 1] == s + shorter;
      TrimEndBeforeWhitespace(s, shorter);
    }
  }

  /** The first segment of a comma-free part followed by nothing or by a
      comma and anything is that part. */
  lemma {:induction false} FirstSegmentOfPrefix(a: string, rest: string)
    requires ',' !in a
    requires rest == [] || rest[0] == ','
    ensures FirstSegment(a + rest) == a
  {
    if a == [] {
      assert a + rest == rest;
    } else {
      assert (a + rest)[1..] == a[1..] + rest;
      FirstSegmentOfPrefix(a[1..], rest);
    }
  }

  /** Whatever padding surrounds the first address of a forwarded-for chain,
      and whatever hops follow it, the recorded address is that first one. */
  lemma FirstHopOfChain(pre: string, ip: string, post: string, rest: string)
    requires AllWhitespace(pre) && AllWhitespace(post)
    requires ',' !in ip && IsTrimmed(ip)
    requires rest == [] || rest[0] == ','
    ensures FirstHop(pre + ip + post + rest) == ip
  {
    var padded := pre + ip + post;
    assert ',' !in padded;
    assert pre + ip + post + rest == padded + rest;
    FirstSegmentOfPrefix(padded, rest);
    TrimPadded(pre, ip, post);
  }

  /** Trimming a trimmed part padded with whitespace gives back that part. */
  lemma TrimPadded(pre: string, ip: string, post: string)
    requires AllWhitespace(pre) && AllWhitespace(post) && IsTrimmed(ip)
    ensures Trim(pre + ip + post) == ip
  {
    if ip == [] {
      assert pre + ip + post + [] == pre + post;
      TrimStartAfterWhitespace(pre + post, []);
    } else {
      assert pre + ip + post == pre + (ip + post);
      TrimStartAfterWhitespace(pre, ip + post);
      TrimEndBeforeWhitespace(ip, post);
    }
  }
}
