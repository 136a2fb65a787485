/**
 * The Authorization header as both ends handle it: the client sends
 * `Bearer ${token}`, and the server's middleware takes `split(" ")[1]`.
 */
module Http {
  import opened JsValues

  /** "Bearer", the scheme word the client writes before its token. */
  const BearerScheme: JsString := [0x42, 0x65, 0x61, 0x72, 0x65, 0x72]

  /** The header value the client sends: `Bearer ${token}`. */
  function BearerHeader(token: JsString): (h: JsString)
    ensures |h| == |BearerScheme| + 1 + |token|
    ensures h[..|BearerScheme|] == BearerScheme && h[|BearerScheme|] == Space
    ensures h[|BearerScheme| + 1..] == token
  {
    BearerScheme + [Space] + token
  }

  /** The first field of `s.split(" ")`: the longest prefix of s without a space. */
  function FirstField(s: JsString): (r: JsString)
    ensures r <= s && Space !in r
    ensures |r| == |s| || s[|r|] == Space
  {
    if s == [] || s[0] == Space then [] else [s[0]] + FirstField(s[1..])
  }

  /** Where the first space of s sits, and how the field after it ends. */
  lemma FieldsAt(s: JsString, i: nat, v: JsString)
    requires i == |FirstField(s)| < |s| && v == FirstField(s[i + 1..])
    ensures s[i] == Space && Space !in s[..i]
    ensures i + 1 + |v| <= |s| && s[i + 1..i + 1 + |v|] == v
    ensures i + 1 + |v| == |s| || s[i + 1 + |v|] == Space
  {
    assert s[..i] == FirstField(s);
    var rest := s[i + 1..];
    assert rest[..|v|] == v;
    assert s[i + 1..i + 1 + |v|] == rest[..|v|];
    if i + 1 + |v| < |s| {
      assert s[i + 1 + |v|] == rest[|v|];
    }
  }

  /**
   * `s.split(" ")[1]`: the second field, or `undefined` when s holds no space.
   * The field starts right after the first space and runs to the next space or the end.
   */
  function SecondField(s: JsString): (r: Option<JsString>)
    ensures r.None? <==> Space !in s
    ensures r.Some? ==> Space !in r.value
    ensures r.Some? ==>
      exists i :: 0 <= i < |s| && s[i] == Space && Space !in s[..i]
        && i + 1 + |r.value| <= |s| && s[i + 1..i + 1 + |r.value|] == r.value
        && (i + 1 + |r.value| == |s| || s[i + 1 + |r.value|] == Space)
  {
    var first := FirstField(s);
    if |first| == |s| then None
    else
      var v := FirstField(s[|first| + 1..]);
      FieldsAt(s, |first|, v);
      Some(v)
  }

  /** A field that ends at a space (or at the end) is exactly what FirstField returns. */
  lemma {:induction false} FirstFieldOfSpaced(a: JsString, rest: JsString)
    requires Space !in a
    requires rest == [] || rest[0] == Space
    ensures FirstField(a + rest) == a
  {
    if a != [] {
      assert (a + rest)[1..] == a[1..] + rest;
      FirstFieldOfSpaced(a[1..], rest);
    }
  }

  /** The server reads back exactly the token the client put in the header. */
  lemma BearerRoundTrip(token: JsString)
    requires Space !in token
    ensures SecondField(BearerHeader(token)) == Some(token)
  {
    var h := BearerHeader(token);
    assert h == BearerScheme + ([Space] + token);
    FirstFieldOfSpaced(BearerScheme, [Space] + token);
    FirstFieldOfSpaced(token, []);
    assert token + [] == token;
  }
}
