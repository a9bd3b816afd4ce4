/** What `apps/authup/src/host/client.ts` keeps of a grant, and the grant it makes of a kept pair, in milliseconds. */
module HostTokens {
  import opened Basics

  datatype Grant = Grant(accessToken: string, refreshToken: Option<string>, expiresIn: int)

  datatype Kept = Kept(accessToken: string, refreshToken: Option<string>, expiresAt: int)

  function TokensFromGrant(grant: Grant, now: int): Kept {
    Kept(grant.accessToken, grant.refreshToken, now + grant.expiresIn * 1000)
  }

  function GrantFromTokens(tokens: Kept, now: int): Grant {
    var left := (tokens.expiresAt - now) / 1000;
    Grant(tokens.accessToken, tokens.refreshToken, if left > 0 then left else 0)
  }

  /**
   A kept pair expires as many seconds after its grant as the grant says. An adopted pair is the granted one; its
   remaining life is rounded down, never up, and by less than a second.
   */
  lemma AdoptedGrantNeverOutlivesThePair(grant: Grant, granted: int, adopted: int)
    ensures var kept := TokensFromGrant(grant, granted); var again := GrantFromTokens(kept, adopted);
      && kept.accessToken == grant.accessToken && kept.refreshToken == grant.refreshToken
      && kept.expiresAt - granted == 1000 * grant.expiresIn
      && again.accessToken == grant.accessToken && again.refreshToken == grant.refreshToken
      && again.expiresIn >= 0
      && (kept.expiresAt <= adopted ==> again.expiresIn == 0)
      && (kept.expiresAt >= adopted ==> 0 <= kept.expiresAt - (adopted + again.expiresIn * 1000) < 1000)
      && (granted == adopted && grant.expiresIn >= 0 ==> again == grant)
  {
    var left := TokensFromGrant(grant, granted).expiresAt - adopted;
    assert left == 1000 * (left / 1000) + left % 1000;
  }
}
