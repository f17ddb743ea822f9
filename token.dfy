/**
 * The mock token's format: what `/auth/me` accepts, and that it reads back
 * the identifier a successful verification minted the token for.
 */
module TokenFormat {
  import opened Wrappers
  import opened JsStrings
  import opened Server

  /** A decimal string holds neither a space nor a hyphen. */
  lemma DigitsHaveNoSeparators(s: string)
    requires AllDigits(s)
    ensures ' ' !in s && '-' !in s
  {
  }

  lemma StartsWithConcat(s: string, p: string, q: string)
    ensures StartsWith(s, p + q) <==> StartsWith(s, p) && StartsWith(s[|p|..], q)
  {
    if StartsWith(s, p) && StartsWith(s[|p|..], q) {
      assert s[..|p + q|] == s[..|p|] + s[|p|..][..|q|];
    }
    if StartsWith(s, p + q) {
      assert s[..|p|] == (p + q)[..|p|];
      assert s[|p|..][..|q|] == (p + q)[|p|..];
    }
  }

  /** The bearer field of `"Bearer " + rest` is the first space-separated piece of `rest`. */
  lemma BearerTokenOf(rest: string)
    ensures StartsWith("Bearer " + rest, "Bearer ")
    ensures BearerToken("Bearer " + rest) == Split(rest, ' ')[0]
  {
    var header := "Bearer " + rest;
    assert header == "Bearer" + [' '] + rest;
    assert ' ' !in "Bearer";
    SplitAtFirstSeparator("Bearer", rest, ' ');
  }

  /**
   * `/auth/me` answers 200 exactly for a header that starts with "Bearer "
   * followed directly by the token prefix; every other header gets 401.
   */
  lemma AuthMeAccepts(authorization: Option<string>)
    ensures AuthMe(authorization).status == 200 <==>
              authorization.Some? && StartsWith(authorization.value, "Bearer mock-token-")
    ensures AuthMe(authorization).status != 200 ==> AuthMe(authorization).status == 401
    // the two refusals: no bearer header at all, or a bearer field without the token prefix
    ensures AuthMe(authorization).status == 401 ==>
              && (AuthMe(authorization).message == Unauthorized || AuthMe(authorization).message == InvalidToken)
              && (AuthMe(authorization).message == Unauthorized <==>
                    authorization.None? || !StartsWith(authorization.value, "Bearer "))
  {
    if authorization.Some? {
      var header := authorization.value;
      assert "Bearer mock-token-" == "Bearer " + "mock-token-";
      StartsWithConcat(header, "Bearer ", "mock-token-");
      if StartsWith(header, "Bearer ") {
        var rest := header[7..];
        assert header == "Bearer " + rest;
        BearerTokenOf(rest);
        assert ' ' !in "mock-token-";
        FirstPieceStartsWith(rest, ' ', "mock-token-");
      }
    }
  }

  /** The hyphen in front of the clock digits is the token's last one. */
  lemma LastHyphenOfMinted(identifier: string, now: nat)
    ensures LastIndexOf(MintToken(identifier, now), '-') == 11 + |identifier|
  {
    var digits := Decimal(now);
    var token := MintToken(identifier, now);
    var cut := 11 + |identifier|;
    assert token == ("mock-token-" + identifier + "-") + digits;
    assert token[cut] == '-';
  }

  /** A token minted for an identifier without spaces holds no space. */
  lemma MintedHasNoSpace(identifier: string, now: nat)
    requires ' ' !in identifier
    ensures ' ' !in MintToken(identifier, now)
  {
  }

  /** The identifier read from a minted token is the one it was minted for. */
  lemma IdentifierOfMinted(identifier: string, now: nat)
    ensures TokenIdentifier(MintToken(identifier, now)) == identifier
  {
    var token := MintToken(identifier, now);
    LastHyphenOfMinted(identifier, now);
    assert 0 <= 11 <= 11 + |identifier| <= |token|;
    assert token[11..11 + |identifier|] == identifier;
  }

  /**
   * The round trip: presenting `"Bearer " + token` for a token minted for an
   * identifier without spaces makes `/auth/me` report that identifier.
   */
  lemma TokenRoundTrip(identifier: string, now: nat)
    requires ' ' !in identifier
    ensures AuthMe(Some("Bearer " + MintToken(identifier, now))) == Response(200, User(identifier))
  {
    var token := MintToken(identifier, now);
    MintedHasNoSpace(identifier, now);
    BearerTokenOf(token);
    assert BearerToken("Bearer " + token) == token;
    IdentifierOfMinted(identifier, now);
  }
}
