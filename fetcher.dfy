/** The HTTP fetcher (internal/fetcher/fetcher.go): each attempt classifies
    the response into success, a retryable failure or a terminal failure,
    and a retrier repeats retryable attempts within a budget.

    The transport is an oracle: `request` is what building a GET request
    from the site gives (its URL, or the parse error), and `exchange(k)` is
    what the k-th round trip answers. The retrier's sleeping between attempts
    is not modelled; its budget, the length of the backoff schedule, is the
    parameter `retries` (maxRetries for the real client). */
module Fetcher {
  import opened Common
  import opened Domain
  import opened Service

  /** The length of the backoff schedule (fetcher.go:18). */
  const MaxRetries: nat := 5
  /** The media type a response must carry (fetcher.go:20). */
  const HtmlContentType: string := "text/html"

  /** One round trip: the client's transport error, or a response with its
      status code, Content-Type header and unread body. */
  datatype Exchange =
    | TransportFailed(e: Error)
    | Responded(status: int, contentType: string, body: Body)

  // ---------------------------------------------------------------------------
  // strings.Contains
  // ---------------------------------------------------------------------------

  predicate HasPrefix(s: string, prefix: string)
  {
    |prefix| <= |s| && s[..|prefix|] == prefix
  }

  /** Whether `sub` occurs in `s`, scanning from the front. */
  predicate Contains(s: string, sub: string)
    decreases |s|
  {
    if HasPrefix(s, sub) then true
    else if s == [] then false
    else Contains(s[1..], sub)
  }

  /** `sub` occurs in `s` starting at position i. */
  ghost predicate OccursAt(s: string, sub: string, i: int)
  {
    0 <= i <= |s| - |sub| && s[i..i + |sub|] == sub
  }

  /** Contains finds exactly the occurrences at some position. */
  lemma {:induction false} ContainsIff(s: string, sub: string)
    ensures Contains(s, sub) <==> exists i :: OccursAt(s, sub, i)
    decreases |s|
  {
    if HasPrefix(s, sub) {
      assert OccursAt(s, sub, 0);
    } else if s == [] {
    } else {
      ContainsIff(s[1..], sub);
      if exists i :: OccursAt(s, sub, i) {
        var i :| OccursAt(s, sub, i);
        assert i != 0;
        assert OccursAt(s[1..], sub, i - 1);
      }
      if exists i :: OccursAt(s[1..], sub, i) {
        var i :| OccursAt(s[1..], sub, i);
        assert OccursAt(s, sub, i + 1);
      }
    }
  }

  /** A string lacking one of the characters of `sub` does not contain it. */
  lemma MissingCharNotContained(s: string, sub: string, c: char)
    requires c in sub && c !in s
    ensures !Contains(s, sub)
  {
    ContainsIff(s, sub);
    var k :| 0 <= k < |sub| && sub[k] == c;
    forall i | 0 <= i <= |s| - |sub|
      ensures !OccursAt(s, sub, i)
    {
      assert s[i + k] in s;
      assert s[i..i + |sub|][k] == s[i + k];
    }
  }

  // ---------------------------------------------------------------------------
  // One attempt (the closure passed to the retrier, fetcher.go:41-65)
  // ---------------------------------------------------------------------------

  /** The whitelist classifier: an error joined with retryErr is retried,
      any other error ends the run. */
  predicate Retryable(e: Error)
  {
    e.RetryMarked?
  }

  /** One attempt. A request that cannot be built fails for good; a transport
      error or a status of 500 or more is retried; any other status but 200
      fails for good, and so does a 200 whose Content-Type does not contain
      "text/html". Otherwise the page is named after the request's URL and the
      body is handed over unread. */
  function Attempt(request: Result<Url>, ex: Exchange, esc: char -> bool): (r: Result<FetchedItem>)
    ensures r.Success? <==> request.Success? && ex.Responded? && ex.status == 200 && Contains(ex.contentType, HtmlContentType)
    ensures r.Success? ==> r.value == FetchedItem(NewPage(request.value, esc), ex.body)
    ensures r.Failure? ==> (Retryable(r.error) <==> request.Success? && (ex.TransportFailed? || ex.status >= 500))
  {
    if request.Failure? then Failure(Wrapped("new request", request.error))
    else match ex
      case TransportFailed(e) => Failure(RetryMarked(Wrapped("do request", e)))
      case Responded(status, contentType, body) =>
        if status >= 500 then Failure(RetryMarked(UnexpectedServerError(status)))
        else if status != 200 then Failure(UnexpectedStatus(status))
        else if !Contains(contentType, HtmlContentType) then Failure(UnexpectedContentType(contentType))
        else Success(FetchedItem(NewPage(request.value, esc), body))
  }

  /** The checks apply in order: below 500, any status but 200 fails whatever
      the Content-Type says, and the error names the status. */
  lemma ContentTypeOnlyFor200(url: Url, status: int, t1: string, t2: string, body: Body, esc: char -> bool)
    requires status < 500 && status != 200
    ensures Attempt(Success(url), Responded(status, t1, body), esc) == Attempt(Success(url), Responded(status, t2, body), esc)
    ensures Attempt(Success(url), Responded(status, t1, body), esc) == Failure(UnexpectedStatus(status))
  {
  }

  // ---------------------------------------------------------------------------
  // The retrier (fetcher.go:38-67)
  // ---------------------------------------------------------------------------

  /** The retrier's outcome from attempt k on: stop at a success or a
      terminal failure, or when all `retries` waits have been used. */
  function Retried(request: Result<Url>, exchange: nat -> Exchange, retries: nat, esc: char -> bool, k: nat): Result<FetchedItem>
    requires k <= retries
    decreases retries - k
  {
    var r := Attempt(request, exchange(k), esc);
    if r.Success? || !Retryable(r.error) || k == retries then r
    else Retried(request, exchange, retries, esc, k + 1)
  }

  /** The attempt at position j ends the run: every earlier attempt failed in
      a retryable way, and this one succeeded, failed for good or used up the
      budget. */
  ghost predicate EndsAt(request: Result<Url>, exchange: nat -> Exchange, retries: nat, esc: char -> bool, j: nat)
  {
    && j <= retries
    && (forall i: nat :: i < j ==> Attempt(request, exchange(i), esc).Failure? && Retryable(Attempt(request, exchange(i), esc).error))
    && (j < retries ==> Attempt(request, exchange(j), esc).Success? || !Retryable(Attempt(request, exchange(j), esc).error))
  }

  /** The retrier returns the outcome of the first attempt that ends the run,
      and there is such an attempt among the first retries + 1. */
  lemma {:induction false} RetriedEndsAt(request: Result<Url>, exchange: nat -> Exchange, retries: nat, esc: char -> bool, k: nat)
    requires k <= retries
    requires forall i: nat :: i < k ==> Attempt(request, exchange(i), esc).Failure? && Retryable(Attempt(request, exchange(i), esc).error)
    ensures exists j: nat :: (k <= j && EndsAt(request, exchange, retries, esc, j)
      && Retried(request, exchange, retries, esc, k) == Attempt(request, exchange(j), esc))
    decreases retries - k
  {
    var r := Attempt(request, exchange(k), esc);
    if r.Success? || !Retryable(r.error) || k == retries {
      assert EndsAt(request, exchange, retries, esc, k);
    } else {
      RetriedEndsAt(request, exchange, retries, esc, k + 1);
    }
  }

  /** At most one attempt ends the run: it is the first non-retryable outcome. */
  lemma EndsAtUnique(request: Result<Url>, exchange: nat -> Exchange, retries: nat, esc: char -> bool, j1: nat, j2: nat)
    requires EndsAt(request, exchange, retries, esc, j1) && EndsAt(request, exchange, retries, esc, j2)
    ensures j1 == j2
  {
  }

  /** Client.Fetch: the closure runs until the retrier stops; the item is set
      only by a successful attempt, so exactly one of item and error is set. */
  method Fetch(request: Result<Url>, exchange: nat -> Exchange, retries: nat, esc: char -> bool)
    returns (item: Option<FetchedItem>, err: Option<Error>)
    ensures item.Some? <==> err.None?
    ensures item.Some? ==> Retried(request, exchange, retries, esc, 0) == Success(item.value)
    ensures err.Some? ==> Retried(request, exchange, retries, esc, 0) == Failure(err.value)
  {
    var fetchedItem: Option<FetchedItem> := None;
    var used := 0;
    while true
      invariant used <= retries
      invariant fetchedItem.None?
      invariant Retried(request, exchange, retries, esc, 0) == Retried(request, exchange, retries, esc, used)
      decreases retries - used
    {
      var ret := Attempt(request, exchange(used), esc);
      if ret.Success? {
        fetchedItem := Some(ret.value);
        return fetchedItem, None;
      }
      if !Retryable(ret.error) || used == retries {
        return fetchedItem, Some(ret.error);
      }
      used := used + 1;
    }
  }

  // ---------------------------------------------------------------------------
  // The cases of internal/fetcher/fetcher_test.go
  // ---------------------------------------------------------------------------

  const EmptyBody: Body := Body([], EOF)

  /** Three server errors and then an HTML page: the fourth attempt
      succeeds within the budget of maxRetries. */
  lemma ServerErrorsThenSuccess(url: Url, body: Body, esc: char -> bool)
    ensures var exchange := (i: nat) => if i < MaxRetries - 2 then Responded(500, "", EmptyBody)
                                       else Responded(200, "text/html; charset=utf-8", body);
      Retried(Success(url), exchange, MaxRetries, esc, 0) == Success(FetchedItem(NewPage(url, esc), body))
  {
    var exchange := (i: nat) => if i < MaxRetries - 2 then Responded(500, "", EmptyBody)
                               else Responded(200, "text/html; charset=utf-8", body);
    assert HasPrefix("text/html; charset=utf-8", HtmlContentType) by {
      assert "text/html; charset=utf-8"[..9] == "text/html";
    }
    assert Retried(Success(url), exchange, MaxRetries, esc, 3) == Success(FetchedItem(NewPage(url, esc), body));
    assert Retried(Success(url), exchange, MaxRetries, esc, 2) == Retried(Success(url), exchange, MaxRetries, esc, 3);
    assert Retried(Success(url), exchange, MaxRetries, esc, 1) == Retried(Success(url), exchange, MaxRetries, esc, 2);
  }

  /** A server that always answers 500 is tried retries + 1 times and its
      last error is returned. */
  lemma {:induction false} ServerErrorsExhaust(url: Url, exchange: nat -> Exchange, retries: nat, esc: char -> bool, k: nat)
    requires k <= retries
    requires forall i: nat :: exchange(i) == Responded(500, "", EmptyBody)
    ensures Retried(Success(url), exchange, retries, esc, k) == Failure(RetryMarked(UnexpectedServerError(500)))
    decreases retries - k
  {
    if k < retries {
      ServerErrorsExhaust(url, exchange, retries, esc, k + 1);
    }
  }

  /** A 404, or a 200 with a JSON body, ends the run at the first attempt,
      whatever later attempts would answer. */
  lemma TerminalOnFirstAttempt(url: Url, exchange: nat -> Exchange, retries: nat, esc: char -> bool)
    requires exchange(0) == Responded(404, "", EmptyBody) || exchange(0) == Responded(200, "application/json", EmptyBody)
    ensures Retried(Success(url), exchange, retries, esc, 0) ==
      if exchange(0).status == 404 then Failure(UnexpectedStatus(404)) else Failure(UnexpectedContentType("application/json"))
  {
    if exchange(0).status == 200 {
      assert HtmlContentType[2] == 'x';
      MissingCharNotContained("application/json", HtmlContentType, 'x');
    }
    FirstAttemptEnds(Success(url), exchange, retries, esc);
  }

  /** A first attempt that fails for good is the retrier's outcome. */
  lemma FirstAttemptEnds(request: Result<Url>, exchange: nat -> Exchange, retries: nat, esc: char -> bool)
    requires Attempt(request, exchange(0), esc).Failure? && !Retryable(Attempt(request, exchange(0), esc).error)
    ensures Retried(request, exchange, retries, esc, 0) == Attempt(request, exchange(0), esc)
  {
  }
}
