/**
 * The backup run: one create-backup POST per listed server, then exactly one retry
 * pass over the servers whose first POST failed, with fixed sleeps between requests
 * and an e-mail for every server that still fails.
 *
 * The outside world (the HTTP endpoint, the clock and the mailer) is a Host object:
 * its network is an oracle that fixes the response to the k-th POST of the run, and
 * its ghost event log records every POST, sleep and e-mail in the order they happen.
 */
module Backup {
  import opened Wrappers

  /** What `requests.post` produced: a response with a status code, or a RequestException. */
  datatype Response = Status(code: int) | RequestException(reason: string)

  /** A create-backup POST succeeded exactly when it answered with status 200. */
  predicate Succeeded(r: Response) {
    r.Status? && r.code == 200
  }

  /** The five environment values every alert e-mail is sent with. */
  datatype EmailArgs = EmailArgs(
    subject: Option<string>,
    body: Option<string>,
    toEmail: Option<string>,
    fromEmail: Option<string>,
    fromPassword: Option<string>)

  /** The environment variables the backup run reads. */
  datatype Env = Env(backupsUrl: Option<string>, apiKey: Option<string>, email: EmailArgs)

  /** What the outside world observes: a POST (with its Authorization header), a sleep, an e-mail. */
  datatype Event =
    | Post(url: string, authorization: Option<string>)
    | Sleep(seconds: nat)
    | Email(args: EmailArgs)

  /** Seconds slept after a first-pass success, after a first-pass failure, and after a retry success. */
  const SuccessDelay: nat := 3
  const FailureDelay: nat := 30
  const RetrySuccessDelay: nat := 5

  /** The response to the k-th POST of the run, counting from 0. */
  type Network = nat -> Response

  class Host {
    const network: Network
    var posts: nat
    ghost var events: seq<Event>

    constructor (network: Network)
      ensures this.network == network && posts == 0 && events == []
    {
      this.network := network;
      posts := 0;
      events := [];
    }

    /** An empty-bodied POST to `url` with the given Authorization header; the oracle decides the outcome. */
    method Post(url: string, authorization: Option<string>) returns (r: Response)
      modifies this
      ensures r == network(old(posts))
      ensures posts == old(posts) + 1 && events == old(events) + [Event.Post(url, authorization)]
    {
      r := network(posts);
      posts := posts + 1;
      events := events + [Event.Post(url, authorization)];
    }

    /** A pause of `seconds` seconds. */
    method Sleep(seconds: nat)
      modifies this
      ensures posts == old(posts) && events == old(events) + [Event.Sleep(seconds)]
    {
      events := events + [Event.Sleep(seconds)];
    }

    /** One alert e-mail, sent with the five e-mail settings. */
    method SendEmail(args: EmailArgs)
      modifies this
      ensures posts == old(posts) && events == old(events) + [Email(args)]
    {
      events := events + [Email(args)];
    }
  }

  // ---------------------------------------------------------------------------
  // The specification of a run

  /** A server's backups URL: the base URL, the server id, then "/backups". */
  function Endpoint(env: Env, serverId: string): string
    requires env.backupsUrl.Some?
  {
    env.backupsUrl.value + serverId + "/backups"
  }

  /** BACKUPS_URL is read only when there is a server to POST for. */
  predicate CanPost(env: Env, ids: seq<string>) {
    ids != [] ==> env.backupsUrl.Some?
  }

  /** The server list is present and non-empty (`not server_ids` is false). */
  predicate Listed(serverIds: Option<seq<string>>) {
    serverIds.Some? && serverIds.value != []
  }

  /** The servers whose first-pass POST, the (from + i)-th of the run for server i, did not succeed. */
  function FirstPassFailures(ids: seq<string>, net: Network, from: nat): seq<string>
    decreases |ids|
  {
    if ids == [] then []
    else
      var n := |ids| - 1;
      FirstPassFailures(ids[..n], net, from) + (if Succeeded(net(from + n)) then [] else [ids[n]])
  }

  /** The events of the first pass over `ids`, whose POSTs are the run's from-th onwards. */
  function FirstPassTrace(env: Env, auth: Option<string>, ids: seq<string>, net: Network, from: nat): seq<Event>
    requires CanPost(env, ids)
    decreases |ids|
  {
    if ids == [] then []
    else
      var n := |ids| - 1;
      FirstPassTrace(env, auth, ids[..n], net, from)
        + [Post(Endpoint(env, ids[n]), auth), Sleep(if Succeeded(net(from + n)) then SuccessDelay else FailureDelay)]
  }

  /** The events of the retry pass over `failed`, whose POSTs are the run's from-th onwards. */
  function RetryTrace(env: Env, auth: Option<string>, failed: seq<string>, net: Network, from: nat): seq<Event>
    requires CanPost(env, failed)
    decreases |failed|
  {
    if failed == [] then []
    else
      var n := |failed| - 1;
      RetryTrace(env, auth, failed[..n], net, from)
        + [Post(Endpoint(env, failed[n]), auth), if Succeeded(net(from + n)) then Sleep(RetrySuccessDelay) else Email(env.email)]
  }

  /** Every event of `backup_servers(server_ids)` when the run's POSTs so far number `from`. */
  function RunTrace(serverIds: Option<seq<string>>, env: Env, net: Network, from: nat): seq<Event>
    requires Listed(serverIds) ==> env.backupsUrl.Some?
  {
    if !Listed(serverIds) then [Email(env.email)]
    else
      var ids := serverIds.value;
      FirstPassTrace(env, env.apiKey, ids, net, from)
        + RetryTrace(env, env.apiKey, FirstPassFailures(ids, net, from), net, from + |ids|)
  }

  // ---------------------------------------------------------------------------
  // backup_servers and retry_failed_servers

  lemma FailuresPrefix(ids: seq<string>, i: nat, net: Network, from: nat)
    requires i < |ids|
    ensures FirstPassFailures(ids[..i + 1], net, from)
         == FirstPassFailures(ids[..i], net, from) + (if Succeeded(net(from + i)) then [] else [ids[i]])
  {
    assert ids[..i + 1][..i] == ids[..i];
  }

  lemma FirstPassTracePrefix(env: Env, auth: Option<string>, ids: seq<string>, i: nat, net: Network, from: nat)
    requires i < |ids| && env.backupsUrl.Some?
    ensures FirstPassTrace(env, auth, ids[..i + 1], net, from)
         == FirstPassTrace(env, auth, ids[..i], net, from)
            + [Post(Endpoint(env, ids[i]), auth), Sleep(if Succeeded(net(from + i)) then SuccessDelay else FailureDelay)]
  {
    assert ids[..i + 1][..i] == ids[..i];
  }

  lemma RetryTracePrefix(env: Env, auth: Option<string>, failed: seq<string>, j: nat, net: Network, from: nat)
    requires j < |failed| && env.backupsUrl.Some?
    ensures RetryTrace(env, auth, failed[..j + 1], net, from)
         == RetryTrace(env, auth, failed[..j], net, from)
            + [Post(Endpoint(env, failed[j]), auth), if Succeeded(net(from + j)) then Sleep(RetrySuccessDelay) else Email(env.email)]
  {
    assert failed[..j + 1][..j] == failed[..j];
  }

  lemma FailuresInList(ids: seq<string>, net: Network, from: nat)
    ensures forall x :: x in FirstPassFailures(ids, net, from) ==> x in ids
    decreases |ids|
  {
    if ids != [] {
      FailuresInList(ids[..|ids| - 1], net, from);
    }
  }

  /** `backup_servers(server_ids)`: an e-mail for a missing or empty list, otherwise both passes. */
  method BackupServers(serverIds: Option<seq<string>>, env: Env, host: Host)
    requires Listed(serverIds) ==> env.backupsUrl.Some?
    modifies host
    ensures host.events == old(host.events) + RunTrace(serverIds, env, host.network, old(host.posts))
    ensures host.posts == old(host.posts)
      + (if Listed(serverIds) then |serverIds.value| + |FirstPassFailures(serverIds.value, host.network, old(host.posts))| else 0)
  {
    if serverIds.None? || |serverIds.value| == 0 {
      host.SendEmail(env.email);
      return;
    }
    var ids := serverIds.value;
    var headers := env.apiKey;
    ghost var before := host.events;
    ghost var from := host.posts;
    ghost var net := host.network;
    var failedServers := FirstPass(ids, headers, env, host);
    ghost var first := host.events;
    RetryFailedServers(failedServers, headers, env, host);
    ghost var firstTrace := FirstPassTrace(env, headers, ids, net, from);
    ghost var retryTrace := RetryTrace(env, headers, failedServers, net, from + |ids|);
    assert RunTrace(serverIds, env, net, from) == firstTrace + retryTrace;
    assert host.events == before + (firstTrace + retryTrace);
  }

  /** The body of `backup_servers`' first loop for one server: one POST, then a pause; `ok` tells whether it answered 200. */
  method BackupOne(serverId: string, headers: Option<string>, env: Env, host: Host) returns (ok: bool)
    requires env.backupsUrl.Some?
    modifies host
    ensures ok == Succeeded(host.network(old(host.posts)))
    ensures host.posts == old(host.posts) + 1
    ensures host.events == old(host.events)
      + [Post(Endpoint(env, serverId), headers), Sleep(if ok then SuccessDelay else FailureDelay)]
  {
    var url := env.backupsUrl.value + serverId + "/backups";
    var backup := host.Post(url, headers);
    if backup.Status? && backup.code == 200 {
      ok := true;
      host.Sleep(SuccessDelay);
    } else {
      // a status other than 200, or a RequestException: recorded and slept on the same way
      ok := false;
      host.Sleep(FailureDelay);
    }
  }

  /** The first loop of `backup_servers`: one POST per listed server, collecting the ones that did not answer 200. */
  method FirstPass(ids: seq<string>, headers: Option<string>, env: Env, host: Host) returns (failed: seq<string>)
    requires CanPost(env, ids)
    modifies host
    ensures failed == FirstPassFailures(ids, host.network, old(host.posts))
    ensures CanPost(env, failed)
    ensures host.events == old(host.events) + FirstPassTrace(env, headers, ids, host.network, old(host.posts))
    ensures host.posts == old(host.posts) + |ids|
  {
    failed := [];
    ghost var from := host.posts;
    ghost var before := host.events;
    ghost var net := host.network;
    for i := 0 to |ids|
      invariant host.posts == from + i
      invariant failed == FirstPassFailures(ids[..i], net, from)
      invariant host.events == before + FirstPassTrace(env, headers, ids[..i], net, from)
    {
      var ok := BackupOne(ids[i], headers, env, host);
      if !ok {
        failed := failed + [ids[i]];
      }
      FailuresPrefix(ids, i, net, from);
      FirstPassTracePrefix(env, headers, ids, i, net, from);
    }
    assert ids[..|ids|] == ids;
    FailuresInList(ids, net, from);
  }

  /** The body of `retry_failed_servers`' loop for one server: one POST, then a pause or an e-mail. */
  method RetryOne(serverId: string, headers: Option<string>, env: Env, host: Host)
    requires env.backupsUrl.Some?
    modifies host
    ensures host.posts == old(host.posts) + 1
    ensures host.events == old(host.events)
      + [Post(Endpoint(env, serverId), headers),
         if Succeeded(host.network(old(host.posts))) then Sleep(RetrySuccessDelay) else Email(env.email)]
  {
    var url := env.backupsUrl.value + serverId + "/backups";
    var retry := host.Post(url, headers);
    if retry.Status? && retry.code == 200 {
      host.Sleep(RetrySuccessDelay);
    } else {
      // a status other than 200, or a RequestException: one e-mail either way
      host.SendEmail(env.email);
    }
  }

  /** `retry_failed_servers(failed_servers, headers)`: one more POST per failed server, in order. */
  method RetryFailedServers(failedServers: seq<string>, headers: Option<string>, env: Env, host: Host)
    requires CanPost(env, failedServers)
    modifies host
    ensures host.events == old(host.events) + RetryTrace(env, headers, failedServers, host.network, old(host.posts))
    ensures host.posts == old(host.posts) + |failedServers|
  {
    ghost var from := host.posts;
    ghost var before := host.events;
    ghost var net := host.network;
    for j := 0 to |failedServers|
      invariant host.posts == from + j
      invariant host.events == before + RetryTrace(env, headers, failedServers[..j], net, from)
    {
      RetryOne(failedServers[j], headers, env, host);
      RetryTracePrefix(env, headers, failedServers, j, net, from);
    }
    assert failedServers[..|failedServers|] == failedServers;
  }
}
