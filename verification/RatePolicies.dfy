/** Which policy a request falls under, and why one counter key always carries one policy. */
module RatePolicies {
  import opened Common
  import opened LocalRateLimiter

  datatype Request = Request(verb: string, path: string, hasSearch: bool)

  predicate EndsWith(s: string, suffix: string)
  {
    |s| >= |suffix| && s[|s| - |suffix|..] == suffix
  }

  predicate OccursAt(s: string, part: string, i: int)
  {
    0 <= i <= |s| - |part| && s[i..i + |part|] == part
  }

  ghost predicate Contains(s: string, part: string)
  {
    exists i :: OccursAt(s, part, i)
  }

  /** The table of fixed authentication policies; each of them is for POST. */
  function Fixed(path: string): Option<Policy>
  {
    if path == "/api/v1/auth/register" then Some(Policy("auth-register", 5, 900, true))
    else if path == "/api/v1/auth/password-reset/confirm" then Some(Policy("password-reset-confirm", 10, 900, true))
    else if path == "/api/v1/account/password" then Some(Policy("password-change", 5, 900, true))
    else if path == "/api/v1/account/password-change" then Some(Policy("password-change", 5, 900, true))
    else if path == "/api/v1/auth/login" then Some(Policy("auth-login", 10, 60, true))
    else if path == "/api/v1/auth/refresh" then Some(Policy("auth-refresh", 30, 60, true))
    else if path == "/api/v1/auth/password-reset/request" then Some(Policy("password-reset", 5, 900, true))
    else None
  }

  ghost function PolicyFor(r: Request): Option<Policy>
  {
    var path := if "/v1/" <= r.path then "/api" + r.path else r.path;
    if r.verb == "POST" && Fixed(path).Some? then Fixed(path)
    else if r.verb == "POST" && EndsWith(path, "/attempts") then Some(Policy("assessment-start", 10, 300, true))
    else if r.verb == "POST" && EndsWith(path, "/submission") then Some(Policy("assessment-submit", 20, 300, true))
    else if r.verb == "GET" &&
        Contains(path, "/public/credentials/") then Some(Policy("credential-verify", 60, 60, true))
    else if r.verb == "GET" && path == "/api/v1/courses" &&
        r.hasSearch then Some(Policy("catalog-search", 60, 60, false))
    else None
  }

  /** The counter's key: namespace, action and a 32-digit digest of the caller's identity. */
  function CounterKey(namespace: string, action: string, digest: string): string
  {
    namespace + ":rate:" + action + ":" + digest
  }

  /** The policies, told apart by the length and the first letter of their action. */
  function ByAction(action: string): Policy
  {
    match |action|
    case 10 => Policy(action, 10, 60, true)
    case 12 => Policy(action, 30, 60, true)
    case 16 => Policy(action, 10, 300, true)
    case 22 => Policy(action, 10, 900, true)
    case 14 => if action[0] == 'p' then Policy(action, 5, 900, true) else Policy(action, 60, 60, false)
    case 17 => if action[0] == 'a' then Policy(action, 20, 300, true) else Policy(action, 60, 60, true)
    case _ => Policy(action, 5, 900, true)
  }

  lemma FixedByAction(path: string)
    requires Fixed(path).Some?
    ensures Fixed(path).value == ByAction(Fixed(path).value.action)
  {
  }

  lemma PolicyByAction(r: Request)
    requires PolicyFor(r).Some?
    ensures PolicyFor(r).value == ByAction(PolicyFor(r).value.action)
  {
    var path := if "/v1/" <= r.path then "/api" + r.path else r.path;
    if Fixed(path).Some? { FixedByAction(path); }
  }

  lemma ActionFixesPolicy(a: Request, b: Request)
    requires PolicyFor(a).Some? && PolicyFor(b).Some?
    requires PolicyFor(a).value.action == PolicyFor(b).value.action
    ensures PolicyFor(a) == PolicyFor(b)
  {
    PolicyByAction(a);
    PolicyByAction(b);
  }

  /** Only catalog search lets requests through when no counter can be reached. */
  lemma OnlySearchFailsOpen(r: Request)
    requires PolicyFor(r).Some?
    ensures PolicyFor(r).value.failClosed <==>
            !(r.verb == "GET" && r.hasSearch && (r.path == "/api/v1/courses" || r.path == "/v1/courses"))
  {
    assert "/api" + "/v1/courses" == "/api/v1/courses";
    if "/v1/" <= r.path && "/api" + r.path == "/api/v1/courses" {
      CancelPrefix("/api", r.path, "/v1/courses");
    }
  }

  /** A route below the short prefix falls under the policy of the same route below the long one. */
  lemma ShortPrefixIsAnAlias(r: Request)
    requires "/v1/" <= r.path
    ensures PolicyFor(r) == PolicyFor(r.(path := "/api" + r.path))
  {
    var long := "/api" + r.path;
    assert long[0] == '/' && long[1] == 'a';
  }

  lemma CancelSuffix(a: string, b: string, x: string, y: string)
    requires |x| == |y| && a + x == b + y
    ensures a == b && x == y
  {
    assert a == (a + x)[..|a|] && b == (b + y)[..|b|];
    assert x == (a + x)[|a|..] && y == (b + y)[|b|..];
  }

  lemma CancelPrefix(p: string, a: string, b: string)
    requires p + a == p + b
    ensures a == b
  {
    assert a == (p + a)[|p|..] && b == (p + b)[|p|..];
  }

  /** Two requests that share a counter share the caller digest and the whole policy, so every
      run of the limiter charges each key under one fixed policy. */
  lemma KeyFixesPolicy(namespace: string, a: Request, b: Request, da: string, db: string)
    requires PolicyFor(a).Some? && PolicyFor(b).Some? && |da| == 32 && |db| == 32
    requires CounterKey(namespace, PolicyFor(a).value.action, da) ==
             CounterKey(namespace, PolicyFor(b).value.action, db)
    ensures PolicyFor(a) == PolicyFor(b) && da == db
  {
    var x, y := PolicyFor(a).value.action, PolicyFor(b).value.action;
    var head := namespace + ":rate:";
    CancelSuffix(head + x + ":", head + y + ":", da, db);
    CancelSuffix(head + x, head + y, ":", ":");
    CancelPrefix(head, x, y);
    ActionFixesPolicy(a, b);
  }
}
