/** The repository's star count: one request for the first page of stargazers with a
    page size of one, whose `rel="last"` link (section 3 of RFC 8288) then names the
    number of stargazers. */
module GithubService {
  import opened Common
  import opened Http

  const StargazersUrl := "https://api.github.com/repos/AswinAsok/nano-weather-app/stargazers?per_page=1"
  const AcceptHeader := "Accept"
  const VersionHeader := "X-GitHub-Api-Version"
  const AuthHeader := "Authorization"
  const AcceptValue := "application/vnd.github+json"
  const ApiVersion := "2022-11-28"

  /** The request headers for a token read from the environment (None when unset): the
      two fixed ones, and a bearer token when the trimmed token is not empty. */
  function Headers(token: Option<string>): (h: map<string, string>)
    ensures AcceptHeader in h && h[AcceptHeader] == AcceptValue
    ensures VersionHeader in h && h[VersionHeader] == ApiVersion
    ensures AuthHeader in h <==> token.Some? && Trim(token.value) != []
    ensures AuthHeader in h ==> h[AuthHeader] == "Bearer " + Trim(token.value)
    ensures h.Keys <= {AcceptHeader, VersionHeader, AuthHeader}
  {
    var fixed := map[AcceptHeader := AcceptValue, VersionHeader := ApiVersion];
    if token.Some? && Trim(token.value) != [] then fixed[AuthHeader := "Bearer " + Trim(token.value)]
    else fixed
  }

  /** A token of white space only sends no credentials, and the one sent has no
      surrounding white space. */
  lemma TokenHeader(token: string)
    ensures AuthHeader in Headers(Some(token)) <==> !AllSpace(token)
    ensures AuthHeader in Headers(Some(token)) ==>
      var t := Headers(Some(token))[AuthHeader][|"Bearer "|..];
      t != [] && Trim(t) == t
  {
    TrimEmptyIffBlank(token);
    TrimIsTrimmed(token);
  }

  // ---------------------------------------------------------------------------
  // The `Link` header: /[?&]page=(\d+)>; rel="last"/

  const PageParam := "page="
  const LastRel := ">; rel=\"last\""

  /** The length of the run of decimal digits `s` starts with. */
  function DigitRun(s: string): (n: nat)
    ensures n <= |s| && forall k :: 0 <= k < n ==> IsDigit(s[k])
    ensures n < |s| ==> !IsDigit(s[n])
  {
    if s == [] || !IsDigit(s[0]) then 0 else 1 + DigitRun(s[1..])
  }

  /** Whether the pattern matches at the start of `t`. The digit group is greedy, and
      giving digits back cannot help because `>` is not a digit, so the longest run is
      the only one to try. */
  predicate MatchHere(t: string)
  {
    |t| >= 6 && QueryMark(t[0]) && PageAndRel(t)
  }

  predicate QueryMark(c: char)
  {
    c == '?' || c == '&'
  }

  /** The part of a match after its first character. */
  predicate PageAndRel(t: string)
    requires |t| >= 6
  {
    && t[1..6] == PageParam
    && var n := DigitRun(t[6..]);
    && n > 0
    && StartsWith(t[6 + n..], LastRel)
  }

  /** The captured group of a match at the start of `t`. */
  function PageDigits(t: string): (d: string)
    requires MatchHere(t)
    ensures d != [] && AllDigits(d)
  {
    var n := DigitRun(t[6..]);
    assert forall k :: 0 <= k < n ==> t[6..6 + n][k] == t[6..][k];
    t[6..6 + n]
  }

  /** The captured page number of the leftmost match, as `String.prototype.match`
      finds it, read as `Number` reads a run of digits. */
  function LastPage(link: string): Option<nat>
  {
    if link == [] then None
    else if MatchHere(link) then Some(DigitsValue(PageDigits(link)))
    else LastPage(link[1..])
  }

  /** The search reports the match that starts first. */
  lemma {:induction false} LastPageIsLeftmost(s: string, i: nat)
    requires i < |s| && MatchHere(s[i..])
    requires forall j :: 0 <= j < i ==> !MatchHere(s[j..])
    ensures LastPage(s) == Some(DigitsValue(PageDigits(s[i..])))
  {
    if i > 0 {
      assert !MatchHere(s[0..]) && s[0..] == s;
      forall j | 0 <= j < i - 1
        ensures !MatchHere(s[1..][j..])
      {
        assert s[1..][j..] == s[j + 1..];
      }
      assert s[1..][i - 1..] == s[i..];
      LastPageIsLeftmost(s[1..], i - 1);
    } else {
      assert s[0..] == s;
    }
  }

  /** The search reports nothing only when the pattern matches nowhere. */
  lemma {:induction false} NoLastPage(s: string, j: nat)
    requires j < |s| && LastPage(s).None?
    ensures !MatchHere(s[j..])
  {
    if j > 0 {
      assert s[1..][j - 1..] == s[j..];
      NoLastPage(s[1..], j - 1);
    } else {
      assert s[0..] == s;
    }
  }

  /** What the request returned: the status, the `Link` header (None when absent) and
      the body as JSON. */
  datatype StarsResponse = StarsResponse(status: int, link: Option<string>, data: Json)

  const ApiError := "GitHub API error: "

  /** `fetchRepoStars` after the request: an error for a status outside 200-299; the
      last page when the `Link` header names one; otherwise the length of the array
      in the body, or 0. */
  function Stars(res: StarsResponse): (r: Result<nat>)
    ensures r.Err? <==> !(200 <= res.status <= 299)
    ensures r.Err? ==> r.message == ApiError + IntToString(res.status)
    ensures r.Ok? && res.link.Some? && LastPage(res.link.value).Some? ==> r.value == LastPage(res.link.value).value
    ensures r.Ok? && (res.link.None? || LastPage(res.link.value).None?) ==>
      r.value == (if res.data.JArr? then |res.data.items| else 0)
  {
    if !(200 <= res.status <= 299) then Err(ApiError + IntToString(res.status))
    else if res.link.Some? && res.link.value != [] && LastPage(res.link.value).Some? then Ok(LastPage(res.link.value).value)
    else Ok(if res.data.JArr? then |res.data.items| else 0)
  }

  // ---------------------------------------------------------------------------
  // Round trip through the header GitHub writes

  /** One link of a `Link` header for the stargazers list, one per page. */
  function LinkEntry(base: string, page: nat, rel: string): string
  {
    "<" + base + "?per_page=1&page=" + NatToString(page) + ">; rel=\"" + rel + "\""
  }

  predicate NoQueryMarks(s: string)
  {
    forall k :: 0 <= k < |s| ==> !QueryMark(s[k])
  }


  /** Text without `?` or `&` cannot start a match, so the search passes over it. */
  lemma {:induction false} LastPagePastPlain(p: string, t: string)
    requires NoQueryMarks(p)
    ensures LastPage(p + t) == LastPage(t)
  {
    if p == [] {
      assert p + t == t;
    } else {
      assert (p + t)[0] == p[0];
      assert !MatchHere(p + t);
      assert (p + t)[1..] == p[1..] + t;
      LastPagePastPlain(p[1..], t);
    }
  }

  /** A digit run ends where the first non-digit stands. */
  lemma {:induction false} DigitRunOf(d: string, rest: string)
    requires AllDigits(d) && rest != [] && !IsDigit(rest[0])
    ensures DigitRun(d + rest) == |d|
  {
    if d != [] {
      assert (d + rest)[1..] == d[1..] + rest;
      DigitRunOf(d[1..], rest);
    }
  }

  /** The `&page=N>; rel="last"` tail matches at its start and captures N. */
  lemma PageTailMatches(n: nat)
    ensures var t := "&page=" + NatToString(n) + LastRel;
      MatchHere(t) && DigitsValue(PageDigits(t)) == n
  {
    var d := NatToString(n);
    var t := "&page=" + d + LastRel;
    assert t[6..] == d + LastRel;
    DigitRunOf(d, LastRel);
    assert t[6 + |d|..] == LastRel;
    assert PageDigits(t) == d;
    DigitsValueOfNatToString(n);
  }

  /** The `?per_page=1` query start does not match, so the search moves on to the
      parameter after it. */
  lemma {:induction false} LastPagePastPerPage(t: string)
    ensures LastPage("?per_page=1" + t) == LastPage(t)
  {
    var q := "?per_page=1" + t;
    assert q[1..6] != PageParam by {
      assert q[2] == 'e';
    }
    assert !MatchHere(q);
    assert q[1..] == "per_page=1" + t;
    LastPagePastPlain("per_page=1", t);
  }

  /** The header of a single `rel="last"` link gives back its page number. */
  lemma LastPageOfLastLink(base: string, n: nat)
    requires NoQueryMarks(base)
    ensures LastPage(LinkEntry(base, n, "last")) == Some(n)
  {
    var a := "<" + base;
    var t := "&page=" + NatToString(n) + LastRel;
    assert LinkEntry(base, n, "last") == a + ("?per_page=1" + t);
    assert NoQueryMarks(a) by {
      assert forall k :: 1 <= k < |a| ==> a[k] == base[k - 1];
    }
    LastPagePastPlain(a, "?per_page=1" + t);
    LastPagePastPerPage(t);
    PageTailMatches(n);
  }

  /** After the digits of a `next` link comes `rel="next"`, not `rel="last"`. */
  lemma NextParamNoMatch(d: string, rest: string)
    requires AllDigits(d)
    ensures !MatchHere("&page=" + d + ">; rel=\"next\"" + rest)
  {
    var u := "&page=" + d + ">; rel=\"next\"" + rest;
    var after := ">; rel=\"next\"" + rest;
    assert u[6..] == d + after;
    DigitRunOf(d, after);
    assert u[6 + |d|..] == after;
    assert after[8] != LastRel[8];
  }

  /** The rest of a `next` link holds no `?` or `&`. */
  lemma NextTailPlain(d: string)
    requires AllDigits(d)
    ensures NoQueryMarks("page=" + d + ">; rel=\"next\", ")
  {
    var tail := "page=" + d + ">; rel=\"next\", ";
    forall k | 0 <= k < |tail|
      ensures !QueryMark(tail[k])
    {
      if 5 <= k < 5 + |d| {
        assert tail[k] == d[k - 5];
      }
    }
  }

  /** The `&page=N>; rel="next"` parameter of a `next` link does not match, nor does
      anything up to the next link. */
  lemma {:induction false} LastPagePastNext(next: nat, link: string)
    ensures LastPage("&page=" + NatToString(next) + ">; rel=\"next\", " + link) == LastPage(link)
  {
    var d := NatToString(next);
    var tail := "page=" + d + ">; rel=\"next\", ";
    var u := "&page=" + d + ">; rel=\"next\", " + link;
    assert u == "&" + (tail + link);
    assert !MatchHere(u) by {
      assert u == "&page=" + d + ">; rel=\"next\"" + (", " + link);
      NextParamNoMatch(d, ", " + link);
    }
    assert LastPage(u[1..]) == LastPage(link) by {
      assert u[1..] == tail + link;
      NextTailPlain(d);
      LastPagePastPlain(tail, link);
    }
  }

  /** The header GitHub sends for a middle page, a `next` link followed by the `last`
      one, gives the last page number. */
  lemma LastPageSkipsNext(base: string, next: nat, n: nat)
    requires NoQueryMarks(base)
    ensures LastPage(LinkEntry(base, next, "next") + ", " + LinkEntry(base, n, "last")) == Some(n)
  {
    var a := "<" + base;
    var t := "&page=" + NatToString(next) + ">; rel=\"next\", " + LinkEntry(base, n, "last");
    assert LinkEntry(base, next, "next") + ", " + LinkEntry(base, n, "last") == a + ("?per_page=1" + t);
    assert NoQueryMarks(a) by {
      assert forall k :: 1 <= k < |a| ==> a[k] == base[k - 1];
    }
    LastPagePastPlain(a, "?per_page=1" + t);
    LastPagePastPerPage(t);
    LastPagePastNext(next, LinkEntry(base, n, "last"));
    LastPageOfLastLink(base, n);
  }
}
