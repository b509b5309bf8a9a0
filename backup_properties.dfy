/** What a run's event log shows: whom it POSTed to, how often, and which e-mails and sleeps it produced. */
module BackupProperties {
  import opened Wrappers
  import opened Backup

  // ---------------------------------------------------------------------------
  // Observations of an event log

  /** The URLs POSTed to, in order. */
  function PostedUrls(trace: seq<Event>): seq<string>
    decreases |trace|
  {
    if trace == [] then []
    else (if trace[0].Post? then [trace[0].url] else []) + PostedUrls(trace[1..])
  }

  /** How many POSTs went to `url`. */
  function PostsTo(trace: seq<Event>, url: string): nat
    decreases |trace|
  {
    if trace == [] then 0
    else (if trace[0].Post? && trace[0].url == url then 1 else 0) + PostsTo(trace[1..], url)
  }

  /** How many e-mails were sent. */
  function EmailsSent(trace: seq<Event>): nat
    decreases |trace|
  {
    if trace == [] then 0
    else (if trace[0].Email? then 1 else 0) + EmailsSent(trace[1..])
  }

  lemma {:induction false} PostedUrlsConcat(a: seq<Event>, b: seq<Event>)
    ensures PostedUrls(a + b) == PostedUrls(a) + PostedUrls(b)
    decreases |a|
  {
    if a == [] {
      assert a + b == b;
    } else {
      assert (a + b)[1..] == a[1..] + b;
      PostedUrlsConcat(a[1..], b);
    }
  }

  lemma {:induction false} PostsToConcat(a: seq<Event>, b: seq<Event>, url: string)
    ensures PostsTo(a + b, url) == PostsTo(a, url) + PostsTo(b, url)
    decreases |a|
  {
    if a == [] {
      assert a + b == b;
    } else {
      assert (a + b)[1..] == a[1..] + b;
      PostsToConcat(a[1..], b, url);
    }
  }

  lemma {:induction false} EmailsSentConcat(a: seq<Event>, b: seq<Event>)
    ensures EmailsSent(a + b) == EmailsSent(a) + EmailsSent(b)
    decreases |a|
  {
    if a == [] {
      assert a + b == b;
    } else {
      assert (a + b)[1..] == a[1..] + b;
      EmailsSentConcat(a[1..], b);
    }
  }

  /** A POST followed by a sleep or an e-mail: the shape of every step of both passes. */
  lemma ObservationsOfStep(u: string, auth: Option<string>, b: Event, url: string)
    requires !b.Post?
    ensures PostedUrls([Post(u, auth), b]) == [u]
    ensures PostsTo([Post(u, auth), b], url) == if u == url then 1 else 0
    ensures EmailsSent([Post(u, auth), b]) == if b.Email? then 1 else 0
  {
    assert [Post(u, auth), b][1..] == [b];
    assert [b][1..] == [];
    assert PostedUrls([b]) == PostedUrls([]);
    assert PostsTo([b], url) == PostsTo([], url);
    assert EmailsSent([b]) == (if b.Email? then 1 else 0) + EmailsSent([]);
  }

  /** How often `x` occurs in `xs`. */
  function Occurrences(xs: seq<string>, x: string): nat
    decreases |xs|
  {
    if xs == [] then 0
    else Occurrences(xs[..|xs| - 1], x) + (if xs[|xs| - 1] == x then 1 else 0)
  }

  lemma {:induction false} OccurrencesAbsent(xs: seq<string>, x: string)
    ensures Occurrences(xs, x) == 0 <==> x !in xs
    decreases |xs|
  {
    if xs != [] {
      OccurrencesAbsent(xs[..|xs| - 1], x);
      assert xs == xs[..|xs| - 1] + [xs[|xs| - 1]];
    }
  }

  predicate Distinct(xs: seq<string>) {
    forall i, j :: 0 <= i < j < |xs| ==> xs[i] != xs[j]
  }

  /** The positions i whose POST, the (from + i)-th of the run, did not succeed, in increasing order. */
  function FailedPositions(n: nat, net: Network, from: nat): seq<nat>
    decreases n
  {
    if n == 0 then []
    else FailedPositions(n - 1, net, from) + (if Succeeded(net(from + n - 1)) then [] else [n - 1])
  }

  /** The URL of every server's backups collection, in list order. */
  function Endpoints(env: Env, ids: seq<string>): seq<string>
    requires CanPost(env, ids)
    decreases |ids|
  {
    if ids == [] then [] else Endpoints(env, ids[..|ids| - 1]) + [Endpoint(env, ids[|ids| - 1])]
  }

  /** Two servers share a backups URL only if they are the same server. */
  lemma EndpointInjective(env: Env, s: string, t: string)
    requires env.backupsUrl.Some? && Endpoint(env, s) == Endpoint(env, t)
    ensures s == t
  {
    var base := env.backupsUrl.value;
    var u := Endpoint(env, s);
    assert |s| == |t|;
    assert s == u[|base|..|base| + |s|];
    assert t == Endpoint(env, t)[|base|..|base| + |t|];
  }

  // ---------------------------------------------------------------------------
  // The first pass

  /**
   * The first pass is a POST followed by a sleep for every listed server, in list order:
   * 3 seconds after a 200, 30 after any other status or an exception.
   */
  lemma {:induction false} FirstPassShape(env: Env, auth: Option<string>, ids: seq<string>, net: Network, from: nat)
    requires CanPost(env, ids)
    ensures var t := FirstPassTrace(env, auth, ids, net, from);
      && |t| == 2 * |ids|
      && forall i :: 0 <= i < |ids| ==>
           && t[2 * i] == Post(Endpoint(env, ids[i]), auth)
           && t[2 * i + 1] == Sleep(if Succeeded(net(from + i)) then SuccessDelay else FailureDelay)
    decreases |ids|
  {
    if ids != [] {
      var n := |ids| - 1;
      FirstPassShape(env, auth, ids[..n], net, from);
      var t0 := FirstPassTrace(env, auth, ids[..n], net, from);
      var t := FirstPassTrace(env, auth, ids, net, from);
      forall i | 0 <= i < |ids|
        ensures t[2 * i] == Post(Endpoint(env, ids[i]), auth)
        ensures t[2 * i + 1] == Sleep(if Succeeded(net(from + i)) then SuccessDelay else FailureDelay)
      {
        if i < n {
          assert t[2 * i] == t0[2 * i] && t[2 * i + 1] == t0[2 * i + 1];
          assert ids[..n][i] == ids[i];
        }
      }
    }
  }

  /** The first pass POSTs to every listed server's URL, once per entry, in list order. */
  lemma {:induction false} FirstPassPostedUrls(env: Env, auth: Option<string>, ids: seq<string>, net: Network, from: nat)
    requires CanPost(env, ids)
    ensures PostedUrls(FirstPassTrace(env, auth, ids, net, from)) == Endpoints(env, ids)
    decreases |ids|
  {
    if ids != [] {
      var n := |ids| - 1;
      var delay := Sleep(if Succeeded(net(from + n)) then SuccessDelay else FailureDelay);
      FirstPassPostedUrls(env, auth, ids[..n], net, from);
      PostedUrlsConcat(FirstPassTrace(env, auth, ids[..n], net, from), [Post(Endpoint(env, ids[n]), auth), delay]);
      ObservationsOfStep(Endpoint(env, ids[n]), auth, delay, "");
    }
  }

  /** The first pass sends no e-mail. */
  lemma {:induction false} FirstPassSendsNoEmail(env: Env, auth: Option<string>, ids: seq<string>, net: Network, from: nat)
    requires CanPost(env, ids)
    ensures EmailsSent(FirstPassTrace(env, auth, ids, net, from)) == 0
    decreases |ids|
  {
    if ids != [] {
      var n := |ids| - 1;
      var delay := Sleep(if Succeeded(net(from + n)) then SuccessDelay else FailureDelay);
      FirstPassSendsNoEmail(env, auth, ids[..n], net, from);
      EmailsSentConcat(FirstPassTrace(env, auth, ids[..n], net, from), [Post(Endpoint(env, ids[n]), auth), delay]);
      ObservationsOfStep(Endpoint(env, ids[n]), auth, delay, "");
    }
  }

  /** The number of first-pass POSTs to a server's URL is the number of times it is listed. */
  lemma {:induction false} FirstPassPostsTo(env: Env, auth: Option<string>, ids: seq<string>, net: Network, from: nat, s: string)
    requires env.backupsUrl.Some?
    ensures PostsTo(FirstPassTrace(env, auth, ids, net, from), Endpoint(env, s)) == Occurrences(ids, s)
    decreases |ids|
  {
    if ids != [] {
      var n := |ids| - 1;
      var delay := Sleep(if Succeeded(net(from + n)) then SuccessDelay else FailureDelay);
      FirstPassPostsTo(env, auth, ids[..n], net, from, s);
      PostsToConcat(FirstPassTrace(env, auth, ids[..n], net, from), [Post(Endpoint(env, ids[n]), auth), delay], Endpoint(env, s));
      ObservationsOfStep(Endpoint(env, ids[n]), auth, delay, Endpoint(env, s));
      if Endpoint(env, ids[n]) == Endpoint(env, s) {
        EndpointInjective(env, ids[n], s);
      }
    }
  }

  /** The failing positions are in increasing order, and a position is among them exactly when its POST failed. */
  lemma {:induction false} FailedPositionsExact(n: nat, net: Network, from: nat)
    ensures forall j, k :: 0 <= j < k < |FailedPositions(n, net, from)| ==>
      FailedPositions(n, net, from)[j] < FailedPositions(n, net, from)[k]
    ensures forall j :: 0 <= j < |FailedPositions(n, net, from)| ==> FailedPositions(n, net, from)[j] < n
    ensures forall i :: 0 <= i < n ==> (i in FailedPositions(n, net, from) <==> !Succeeded(net(from + i)))
    decreases n
  {
    if n > 0 {
      FailedPositionsExact(n - 1, net, from);
      var pos0 := FailedPositions(n - 1, net, from);
      var last := if Succeeded(net(from + n - 1)) then [] else [n - 1];
      var pos := pos0 + last;
      assert FailedPositions(n, net, from) == pos;
      forall j | 0 <= j < |pos| ensures pos[j] < n && (j < |pos0| ==> pos[j] == pos0[j]) {
        if j >= |pos0| {
          assert pos[j] == last[j - |pos0|];
        }
      }
      forall j, k | 0 <= j < k < |pos| ensures pos[j] < pos[k] {
        if k >= |pos0| {
          assert pos[k] == n - 1;
          assert pos[j] == pos0[j];
        }
      }
      forall i | 0 <= i < n ensures i in pos <==> !Succeeded(net(from + i)) {
        assert i in pos <==> i in pos0 || i in last;
        if i == n - 1 {
          assert i !in pos0 by {
            forall j | 0 <= j < |pos0| ensures pos0[j] != i {}
          }
        } else {
          assert i !in last;
        }
      }
    }
  }

  /**
   * `failed_servers` lists the servers at the failing positions, in the same order:
   * its j-th entry is the server at the j-th failing position.
   */
  lemma {:induction false} FailuresAreFailedPositions(ids: seq<string>, net: Network, from: nat)
    ensures var failed := FirstPassFailures(ids, net, from);
      var pos := FailedPositions(|ids|, net, from);
      && |failed| == |pos|
      && (forall j :: 0 <= j < |pos| ==> pos[j] < |ids| && failed[j] == ids[pos[j]])
    decreases |ids|
  {
    FailedPositionsExact(|ids|, net, from);
    if ids != [] {
      var n := |ids| - 1;
      var init := ids[..n];
      FailuresAreFailedPositions(init, net, from);
      FailedPositionsExact(n, net, from);
      var pos0 := FailedPositions(n, net, from);
      var failed0 := FirstPassFailures(init, net, from);
      var last := if Succeeded(net(from + n)) then [] else [n];
      var tail := if Succeeded(net(from + n)) then [] else [ids[n]];
      assert FailedPositions(|ids|, net, from) == pos0 + last;
      assert FirstPassFailures(ids, net, from) == failed0 + tail;
      forall j | 0 <= j < |pos0| ensures init[pos0[j]] == ids[pos0[j]] {
      }
    }
  }

  /** A server is in `failed_servers` exactly when one of its first-pass POSTs failed. */
  lemma FailedIffFirstPostFailed(ids: seq<string>, net: Network, from: nat, x: string)
    ensures x in FirstPassFailures(ids, net, from) <==>
      exists i :: 0 <= i < |ids| && ids[i] == x && !Succeeded(net(from + i))
  {
    FailuresAreFailedPositions(ids, net, from);
    FailedPositionsExact(|ids|, net, from);
    var failed := FirstPassFailures(ids, net, from);
    var pos := FailedPositions(|ids|, net, from);
    if x in failed {
      var j :| 0 <= j < |failed| && failed[j] == x;
      assert pos[j] in pos;
    }
    if i :| 0 <= i < |ids| && ids[i] == x && !Succeeded(net(from + i)) {
      assert i in pos;
      var j :| 0 <= j < |pos| && pos[j] == i;
      assert failed[j] == x;
    }
  }

  /** A server listed once is in `failed_servers` once if its first POST failed, and not at all if it answered 200. */
  lemma {:induction false} FailuresOfDistinct(ids: seq<string>, net: Network, from: nat, i: nat)
    requires Distinct(ids) && i < |ids|
    ensures Occurrences(FirstPassFailures(ids, net, from), ids[i]) == if Succeeded(net(from + i)) then 0 else 1
    decreases |ids|
  {
    var n := |ids| - 1;
    var init := ids[..n];
    var rest := FirstPassFailures(init, net, from);
    var tail := if Succeeded(net(from + n)) then [] else [ids[n]];
    assert FirstPassFailures(ids, net, from) == rest + tail;
    OccurrencesAppend(rest, tail, ids[i]);
    OccurrencesSingle(tail, ids[n], ids[i]);
    if i == n {
      assert ids[n] !in init by {
        forall k | 0 <= k < n ensures init[k] != ids[n] {
          assert init[k] == ids[k];
        }
      }
      FailedNotListed(init, net, from, ids[n]);
      OccurrencesAbsent(rest, ids[n]);
    } else {
      assert init[i] == ids[i];
      assert ids[i] != ids[n];
      DistinctPrefix(ids, n);
      FailuresOfDistinct(init, net, from, i);
    }
  }

  lemma DistinctPrefix(ids: seq<string>, n: nat)
    requires Distinct(ids) && n <= |ids|
    ensures Distinct(ids[..n])
  {
    forall i, j | 0 <= i < j < n ensures ids[..n][i] != ids[..n][j] {
      assert ids[..n][i] == ids[i] && ids[..n][j] == ids[j];
    }
  }

  lemma OccurrencesSingle(tail: seq<string>, y: string, x: string)
    requires tail == [] || tail == [y]
    ensures Occurrences(tail, x) == if tail == [y] && y == x then 1 else 0
  {
    if tail == [y] {
      assert tail[..0] == [];
    }
  }

  lemma FailedNotListed(ids: seq<string>, net: Network, from: nat, x: string)
    requires x !in ids
    ensures x !in FirstPassFailures(ids, net, from)
  {
    FailuresInList(ids, net, from);
  }

  lemma OccurrencesAppend(xs: seq<string>, tail: seq<string>, x: string)
    requires |tail| <= 1
    ensures Occurrences(xs + tail, x) == Occurrences(xs, x) + Occurrences(tail, x)
  {
    if tail != [] {
      assert (xs + tail)[..|xs + tail| - 1] == xs;
    } else {
      assert xs + tail == xs;
    }
  }

  // ---------------------------------------------------------------------------
  // The retry pass

  /**
   * The retry pass is a POST for every failed server, in order, followed by a 5-second
   * sleep after a 200 and by one e-mail (and no sleep) after any other status or an exception.
   */
  lemma {:induction false} RetryShape(env: Env, auth: Option<string>, failed: seq<string>, net: Network, from: nat)
    requires CanPost(env, failed)
    ensures var t := RetryTrace(env, auth, failed, net, from);
      && |t| == 2 * |failed|
      && forall j :: 0 <= j < |failed| ==>
           && t[2 * j] == Post(Endpoint(env, failed[j]), auth)
           && t[2 * j + 1] == if Succeeded(net(from + j)) then Sleep(RetrySuccessDelay) else Email(env.email)
    decreases |failed|
  {
    if failed != [] {
      var n := |failed| - 1;
      RetryShape(env, auth, failed[..n], net, from);
      var t0 := RetryTrace(env, auth, failed[..n], net, from);
      var t := RetryTrace(env, auth, failed, net, from);
      forall j | 0 <= j < |failed|
        ensures t[2 * j] == Post(Endpoint(env, failed[j]), auth)
        ensures t[2 * j + 1] == if Succeeded(net(from + j)) then Sleep(RetrySuccessDelay) else Email(env.email)
      {
        if j < n {
          assert t[2 * j] == t0[2 * j] && t[2 * j + 1] == t0[2 * j + 1];
          assert failed[..n][j] == failed[j];
        }
      }
    }
  }

  /** The retry pass POSTs to every failed server's URL, once per entry, in order. */
  lemma {:induction false} RetryPostedUrls(env: Env, auth: Option<string>, failed: seq<string>, net: Network, from: nat)
    requires CanPost(env, failed)
    ensures PostedUrls(RetryTrace(env, auth, failed, net, from)) == Endpoints(env, failed)
    decreases |failed|
  {
    if failed != [] {
      var n := |failed| - 1;
      var after := if Succeeded(net(from + n)) then Sleep(RetrySuccessDelay) else Email(env.email);
      RetryPostedUrls(env, auth, failed[..n], net, from);
      PostedUrlsConcat(RetryTrace(env, auth, failed[..n], net, from), [Post(Endpoint(env, failed[n]), auth), after]);
      ObservationsOfStep(Endpoint(env, failed[n]), auth, after, "");
    }
  }

  /** The number of retry POSTs to a server's URL is the number of times it is in the failed list. */
  lemma {:induction false} RetryPostsTo(env: Env, auth: Option<string>, failed: seq<string>, net: Network, from: nat, s: string)
    requires env.backupsUrl.Some?
    ensures PostsTo(RetryTrace(env, auth, failed, net, from), Endpoint(env, s)) == Occurrences(failed, s)
    decreases |failed|
  {
    if failed != [] {
      var n := |failed| - 1;
      var after := if Succeeded(net(from + n)) then Sleep(RetrySuccessDelay) else Email(env.email);
      RetryPostsTo(env, auth, failed[..n], net, from, s);
      PostsToConcat(RetryTrace(env, auth, failed[..n], net, from), [Post(Endpoint(env, failed[n]), auth), after], Endpoint(env, s));
      ObservationsOfStep(Endpoint(env, failed[n]), auth, after, Endpoint(env, s));
      if Endpoint(env, failed[n]) == Endpoint(env, s) {
        EndpointInjective(env, failed[n], s);
      }
    }
  }

  /** The retry pass sends one e-mail per retry that did not answer 200. */
  lemma {:induction false} RetryEmails(env: Env, auth: Option<string>, failed: seq<string>, net: Network, from: nat)
    requires CanPost(env, failed)
    ensures EmailsSent(RetryTrace(env, auth, failed, net, from)) == |FailedPositions(|failed|, net, from)|
    decreases |failed|
  {
    if failed != [] {
      var n := |failed| - 1;
      var after := if Succeeded(net(from + n)) then Sleep(RetrySuccessDelay) else Email(env.email);
      RetryEmails(env, auth, failed[..n], net, from);
      EmailsSentConcat(RetryTrace(env, auth, failed[..n], net, from), [Post(Endpoint(env, failed[n]), auth), after]);
      ObservationsOfStep(Endpoint(env, failed[n]), auth, after, "");
      assert FailedPositions(|failed|, net, from)
          == FailedPositions(n, net, from) + (if Succeeded(net(from + n)) then [] else [n]);
    }
  }

  /** No e-mail at all exactly when every retry answered 200. */
  lemma {:induction false} NoFailedPositions(n: nat, net: Network, from: nat)
    ensures |FailedPositions(n, net, from)| == 0 <==> forall k :: from <= k < from + n ==> Succeeded(net(k))
    decreases n
  {
    if n > 0 {
      NoFailedPositions(n - 1, net, from);
      var last := if Succeeded(net(from + n - 1)) then [] else [n - 1];
      assert FailedPositions(n, net, from) == FailedPositions(n - 1, net, from) + last;
    }
  }

  // ---------------------------------------------------------------------------
  // The whole run

  /** A missing or empty server list sends exactly one e-mail and POSTs nothing. */
  lemma EmptyListEmailsOnce(serverIds: Option<seq<string>>, env: Env, net: Network, from: nat, url: string)
    requires !Listed(serverIds)
    ensures PostedUrls(RunTrace(serverIds, env, net, from)) == []
    ensures PostsTo(RunTrace(serverIds, env, net, from), url) == 0
    ensures EmailsSent(RunTrace(serverIds, env, net, from)) == 1
  {
    var t := [Email(env.email)];
    assert t[1..] == [];
    assert PostedUrls(t) == PostedUrls([]);
    assert PostsTo(t, url) == PostsTo([], url);
    assert EmailsSent(t) == 1 + EmailsSent([]);
  }

  /** A listed run POSTs to every server in list order, then to every first-pass failure in order. */
  lemma RunPostsInOrder(ids: seq<string>, env: Env, net: Network, from: nat)
    requires ids != [] && env.backupsUrl.Some?
    ensures PostedUrls(RunTrace(Some(ids), env, net, from))
         == Endpoints(env, ids) + Endpoints(env, FirstPassFailures(ids, net, from))
  {
    var failed := FirstPassFailures(ids, net, from);
    FailuresInList(ids, net, from);
    var first := FirstPassTrace(env, env.apiKey, ids, net, from);
    var retry := RetryTrace(env, env.apiKey, failed, net, from + |ids|);
    assert RunTrace(Some(ids), env, net, from) == first + retry;
    FirstPassPostedUrls(env, env.apiKey, ids, net, from);
    RetryPostedUrls(env, env.apiKey, failed, net, from + |ids|);
    PostedUrlsConcat(first, retry);
  }

  /** A listed run sends one e-mail per failed retry, and none exactly when every retry answers 200. */
  lemma RunEmails(ids: seq<string>, env: Env, net: Network, from: nat)
    requires ids != [] && env.backupsUrl.Some?
    ensures EmailsSent(RunTrace(Some(ids), env, net, from))
         == |FailedPositions(|FirstPassFailures(ids, net, from)|, net, from + |ids|)|
    ensures EmailsSent(RunTrace(Some(ids), env, net, from)) == 0 <==>
      forall k :: from + |ids| <= k < from + |ids| + |FirstPassFailures(ids, net, from)| ==> Succeeded(net(k))
  {
    var failed := FirstPassFailures(ids, net, from);
    FailuresInList(ids, net, from);
    var first := FirstPassTrace(env, env.apiKey, ids, net, from);
    var retry := RetryTrace(env, env.apiKey, failed, net, from + |ids|);
    assert RunTrace(Some(ids), env, net, from) == first + retry;
    FirstPassSendsNoEmail(env, env.apiKey, ids, net, from);
    RetryEmails(env, env.apiKey, failed, net, from + |ids|);
    EmailsSentConcat(first, retry);
    NoFailedPositions(|failed|, net, from + |ids|);
  }

  /** Every server gets one POST per listing plus one per first-pass failure, so at most twice its listings. */
  lemma RunPostsPerServer(ids: seq<string>, env: Env, net: Network, from: nat, s: string)
    requires ids != [] && env.backupsUrl.Some?
    ensures PostsTo(RunTrace(Some(ids), env, net, from), Endpoint(env, s))
         == Occurrences(ids, s) + Occurrences(FirstPassFailures(ids, net, from), s)
    ensures PostsTo(RunTrace(Some(ids), env, net, from), Endpoint(env, s)) <= 2 * Occurrences(ids, s)
  {
    var failed := FirstPassFailures(ids, net, from);
    FailuresInList(ids, net, from);
    FirstPassPostsTo(env, env.apiKey, ids, net, from, s);
    RetryPostsTo(env, env.apiKey, failed, net, from + |ids|, s);
    PostsToConcat(FirstPassTrace(env, env.apiKey, ids, net, from), RetryTrace(env, env.apiKey, failed, net, from + |ids|), Endpoint(env, s));
    FailuresAtMostListed(ids, net, from, s);
  }

  lemma {:induction false} FailuresAtMostListed(ids: seq<string>, net: Network, from: nat, s: string)
    ensures Occurrences(FirstPassFailures(ids, net, from), s) <= Occurrences(ids, s)
    decreases |ids|
  {
    if ids != [] {
      var n := |ids| - 1;
      var init := ids[..n];
      var rest := FirstPassFailures(init, net, from);
      var tail := if Succeeded(net(from + n)) then [] else [ids[n]];
      FailuresAtMostListed(init, net, from, s);
      assert FirstPassFailures(ids, net, from) == rest + tail;
      assert Occurrences(ids, s) == Occurrences(init, s) + (if ids[n] == s then 1 else 0);
      OccurrencesAppend(rest, tail, s);
      assert tail != [] ==> Occurrences(tail, s) == (if ids[n] == s then 1 else 0) by {
        if tail != [] { assert tail[..0] == []; }
      }
    }
  }

  /**
   * With each server listed once: a server whose first POST answered 200 is POSTed to
   * exactly once, any other exactly twice, and a server not listed is never POSTed to.
   */
  lemma DistinctServersPostedOnceOrTwice(ids: seq<string>, env: Env, net: Network, from: nat, i: nat)
    requires ids != [] && env.backupsUrl.Some? && Distinct(ids) && i < |ids|
    ensures PostsTo(RunTrace(Some(ids), env, net, from), Endpoint(env, ids[i]))
         == if Succeeded(net(from + i)) then 1 else 2
  {
    RunPostsPerServer(ids, env, net, from, ids[i]);
    FailuresOfDistinct(ids, net, from, i);
    OccurrencesOfDistinct(ids, i);
  }

  lemma UnlistedNeverPosted(ids: seq<string>, env: Env, net: Network, from: nat, s: string)
    requires ids != [] && env.backupsUrl.Some? && s !in ids
    ensures PostsTo(RunTrace(Some(ids), env, net, from), Endpoint(env, s)) == 0
  {
    RunPostsPerServer(ids, env, net, from, s);
    OccurrencesAbsent(ids, s);
  }

  lemma {:induction false} OccurrencesOfDistinct(ids: seq<string>, i: nat)
    requires Distinct(ids) && i < |ids|
    ensures Occurrences(ids, ids[i]) == 1
    decreases |ids|
  {
    var n := |ids| - 1;
    if i == n {
      OccurrencesAbsent(ids[..n], ids[n]);
    } else {
      assert ids[..n][i] == ids[i];
      OccurrencesOfDistinct(ids[..n], i);
    }
  }
}
