/** The bearer-token check that guards every `/transcribe` request. */
module Auth {
  import opened Tasks
  import opened Strings

  /** The check as the handler performs it: a missing or empty header fails;
      otherwise the header is cut at every single space, there must be
      exactly two pieces, and the second must be the configured token. The
      first piece (the scheme word) is never looked at. */
  function Authorized(header: Option<string>, token: string): (ok: bool)
    ensures header.None? ==> !ok
    ensures ok ==> header.Some? && ' ' in header.value
  {
    if header.Some? && header.value != "" then
      var pieces := Split(header.value, ' ');
      |pieces| == 2 && pieces[1] == token
    else
      false
  }

  /** An independent description of the accepted headers: some space-free
      scheme word, one space, then exactly the token, which itself holds no
      space. */
  predicate SchemeThenToken(h: string, token: string) {
    var n := |h| - |token| - 1;
    && 0 <= n
    && h[n] == ' '
    && h[n + 1..] == token
    && ' ' !in h[..n]
    && ' ' !in token
  }

  /** The handler accepts a header exactly when it has the scheme-space-token
      shape. In particular a token containing a space can never be
      presented, and two spaces in a row always fail. */
  lemma AuthorizedIff(header: Option<string>, token: string)
    ensures Authorized(header, token) <==> header.Some? && SchemeThenToken(header.value, token)
  {
    if header.Some? {
      var h := header.value;
      if Authorized(header, token) {
        var pieces := Split(h, ' ');
        JoinSplit(h, ' ');
        assert h == pieces[0] + [' '] + pieces[1];
        var n := |pieces[0]|;
        assert h[..n] == pieces[0];
        assert h[n + 1..] == pieces[1];
      }
      if SchemeThenToken(h, token) {
        var n := |h| - |token| - 1;
        assert h == h[..n] + [' '] + token;
        SplitAfterPiece(h[..n], token, ' ');
        SplitNoSeparator(token, ' ');
        assert Split(h, ' ') == [h[..n], token];
      }
    }
  }

  /** An accepted header holds exactly one space, just before the token:
      any scheme word is accepted, and two spaces in a row are refused. */
  lemma AuthorizedOneSpace(h: string, token: string, scheme: string)
    ensures Authorized(Some(h), token) ==>
      forall i :: 0 <= i < |h| && h[i] == ' ' ==> i == |h| - |token| - 1
    ensures ' ' !in scheme && ' ' !in token ==> Authorized(Some(scheme + " " + token), token)
  {
    AuthorizedIff(Some(h), token);
    if Authorized(Some(h), token) {
      var n := |h| - |token| - 1;
      forall i | 0 <= i < n
        ensures h[i] != ' '
      {
        assert h[i] == h[..n][i];
      }
      forall i | n < i < |h|
        ensures h[i] != ' '
      {
        assert h[i] == h[n + 1..][i - n - 1];
      }
    }
    var h' := scheme + " " + token;
    AuthorizedIff(Some(h'), token);
    if ' ' !in scheme && ' ' !in token {
      assert h'[..|scheme|] == scheme;
      assert h'[|scheme| + 1..] == token;
    }
  }
}
