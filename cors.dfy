/** The CORS `origin` callback of server.js: requests without an origin
    pass, and so do the origins of the allow-list (the configured front-end
    URL and two development servers), compared as exact strings. */
module Cors {
  import opened Http

  const LocalDev := "http://localhost:5173"
  const LanDev := "http://10.95.30.56:5173"
  const Rejected := "Not allowed by CORS"

  /** `allowedOrigins`; the first entry is `FRONTEND_URL`, which may be
      unset. */
  function AllowedOrigins(frontendUrl: Option<string>): (r: seq<Option<string>>)
    ensures forall o :: o in r <==> o == frontendUrl || o == Some(LocalDev) || o == Some(LanDev)
  {
    [frontendUrl, Some(LocalDev), Some(LanDev)]
  }

  datatype Decision = Allow | Deny(message: string)

  /** The callback's decision for the request's `Origin` header. */
  function CheckOrigin(frontendUrl: Option<string>, origin: Option<string>): (d: Decision)
    ensures d == Allow <==> || origin.None? || origin.value == ""
                            || origin.value == LocalDev || origin.value == LanDev
                            || origin == frontendUrl
    ensures d.Deny? ==> d.message == Rejected
  {
    if origin.None? || origin.value == "" then Allow
    else if origin in AllowedOrigins(frontendUrl) then Allow
    else Deny(Rejected)
  }

  /** The two development servers pass whatever the configuration. */
  lemma DevelopmentOriginsAllowed(frontendUrl: Option<string>)
    ensures CheckOrigin(frontendUrl, Some(LocalDev)) == Allow
    ensures CheckOrigin(frontendUrl, Some(LanDev)) == Allow
  {
  }

  /** Matching is exact: a trailing slash or another port is refused
      unless that exact string is the configured front-end URL. */
  lemma NearMissesRejected(frontendUrl: Option<string>)
    requires frontendUrl != Some(LocalDev + "/") && frontendUrl != Some("http://localhost:3000")
    ensures CheckOrigin(frontendUrl, Some(LocalDev + "/")) == Deny(Rejected)
    ensures CheckOrigin(frontendUrl, Some("http://localhost:3000")) == Deny(Rejected)
  {
    assert (LocalDev + "/") != LocalDev by {
      assert |LocalDev + "/"| != |LocalDev|;
    }
    assert (LocalDev + "/") != LanDev by {
      assert (LocalDev + "/")[7] != LanDev[7];
    }
    assert "http://localhost:3000" != LocalDev by {
      assert "http://localhost:3000"[17] != LocalDev[17];
    }
    assert "http://localhost:3000" != LanDev by {
      assert "http://localhost:3000"[7] != LanDev[7];
    }
  }

  /** With the front-end URL unset, only the two development servers and
      origin-less requests pass. */
  lemma UnsetFrontEnd(origin: Option<string>)
    ensures CheckOrigin(None, origin) == Allow <==>
              origin.None? || origin.value == "" || origin.value == LocalDev || origin.value == LanDev
  {
  }
}
