/**
 * The base API URL of `getApiUrl`, `https://{hostname}:{port}/api2/{format}`,
 * and a reader that takes such a URL apart again.
 */
module ApiUrl {
  import opened Wrappers
  import opened Credentials

  const Scheme: string := "https://"
  const ApiRoot: string := "/api2/"

  /** `getApiUrl()` for the given credentials and wire format. */
  function Build(c: Credentials, responseType: string): (u: string)
    ensures |u| == |Scheme| + |c.hostname| + 1 + |c.port| + |ApiRoot| + |responseType|
    ensures u[..|Scheme|] == Scheme
    ensures u[|u| - |responseType|..] == responseType
  {
    Scheme + c.hostname + ":" + c.port + ApiRoot + responseType
  }

  /** The pieces a base URL is made of. */
  datatype Parts = Parts(hostname: string, port: string, responseType: string)

  /** `s` with the prefix `p` removed, if `s` starts with `p`. */
  function StripPrefix(s: string, p: string): (r: Option<string>)
    ensures r.Some? <==> |p| <= |s| && s[..|p|] == p
    ensures r.Some? ==> s == p + r.value
  {
    if |p| <= |s| && s[..|p|] == p then Some(s[|p|..]) else None
  }

  /** The text before and after the first `x` in `s`, if `s` holds an `x`. */
  function SplitAt(s: string, x: char): (r: Option<(string, string)>)
    ensures r.Some? ==> s == r.value.0 + [x] + r.value.1 && x !in r.value.0
    ensures r.None? ==> x !in s
  {
    if |s| == 0 then None
    else if s[0] == x then Some(([], s[1..]))
    else match SplitAt(s[1..], x)
      case None => None
      case Some(pair) => Some(([s[0]] + pair.0, pair.1))
  }

  /** The split happens at the first `x`, whatever follows it. */
  lemma {:induction false} SplitAtFirst(a: string, x: char, b: string)
    requires x !in a
    ensures SplitAt(a + [x] + b, x) == Some((a, b))
  {
    if |a| == 0 {
      assert a + [x] + b == [x] + b;
    } else {
      assert (a + [x] + b)[1..] == a[1..] + [x] + b;
      SplitAtFirst(a[1..], x, b);
      assert [a[0]] + a[1..] == a;
    }
  }

  /** The text before and after the last `x` in `s`, if `s` holds an `x`. */
  function SplitAtLast(s: string, x: char): (r: Option<(string, string)>)
    ensures r.Some? ==> s == r.value.0 + [x] + r.value.1 && x !in r.value.1
    ensures r.None? ==> x !in s
  {
    if |s| == 0 then None
    else if s[|s| - 1] == x then Some((s[..|s| - 1], []))
    else match SplitAtLast(s[..|s| - 1], x)
      case None => None
      case Some(pair) => Some((pair.0, pair.1 + [s[|s| - 1]]))
  }

  /** The split happens at the last `x`, whatever precedes it. */
  lemma {:induction false} SplitAtLastOf(a: string, x: char, b: string)
    requires x !in b
    ensures SplitAtLast(a + [x] + b, x) == Some((a, b))
  {
    var s := a + [x] + b;
    if |b| == 0 {
      assert s[..|s| - 1] == a;
    } else {
      assert s[..|s| - 1] == a + [x] + b[..|b| - 1];
      SplitAtLastOf(a, x, b[..|b| - 1]);
      assert b[..|b| - 1] + [b[|b| - 1]] == b;
    }
  }

  /**
   * A host and port that `Parse` can read back: no '/' in the host, and
   * neither ':' nor '/' in the port. The host may hold ':', as an IPv6
   * literal such as "[fe80::1]" does.
   */
  predicate Separable(c: Credentials)
  {
    '/' !in c.hostname && ':' !in c.port && '/' !in c.port
  }

  /**
   * Reads hostname, port and wire format back out of a base URL: the
   * authority ends at the first '/', and the port follows its last ':'.
   */
  function Parse(u: string): Option<Parts>
  {
    var rest :- StripPrefix(u, Scheme);
    var authority :- SplitAt(rest, '/');
    var hostPort :- SplitAtLast(authority.0, ':');
    var format :- StripPrefix(authority.1, ApiRoot[1..]);
    Some(Parts(hostPort.0, hostPort.1, format))
  }

  /** Every base URL built from separable credentials reads back to its pieces. */
  lemma ParseBuild(c: Credentials, responseType: string)
    requires Separable(c)
    ensures Parse(Build(c, responseType)) == Some(Parts(c.hostname, c.port, responseType))
  {
    var tail := ApiRoot[1..] + responseType;
    var authority := c.hostname + [':'] + c.port;
    assert Build(c, responseType) == Scheme + (authority + ['/'] + tail);
    assert StripPrefix(Scheme + (authority + ['/'] + tail), Scheme) == Some(authority + ['/'] + tail);
    SplitAtFirst(authority, '/', tail);
    SplitAtLastOf(c.hostname, ':', c.port);
    assert StripPrefix(tail, ApiRoot[1..]) == Some(responseType);
  }

  /** Whatever `Parse` accepts is the base URL of what it returns. */
  lemma BuildParse(u: string)
    requires Parse(u).Some?
    ensures var p := Parse(u).value;
            Separable(Credentials(p.hostname, "", "", "", p.port))
            && Build(Credentials(p.hostname, "", "", "", p.port), p.responseType) == u
  {
  }

  /**
   * For separable credentials the base URL determines host, port and format:
   * two such URLs are equal exactly when all three agree.
   */
  lemma BuildInjective(c1: Credentials, r1: string, c2: Credentials, r2: string)
    requires Separable(c1) && Separable(c2)
    ensures Build(c1, r1) == Build(c2, r2) <==>
              c1.hostname == c2.hostname && c1.port == c2.port && r1 == r2
  {
    ParseBuild(c1, r1);
    ParseBuild(c2, r2);
  }
}
