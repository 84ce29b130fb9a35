/** The client of a strict token rotation (modules/discordbot/saas_token.go): one chain in memory, one copy
    on disk, and a server that answers a replaced refresh token by revoking the whole family. */
module SaasToken {
  import opened Wrappers

  /** expiresAt is None for the zero time. */
  datatype Chain = Chain(access: string, refresh: string, expiresAt: Option<int>)

  datatype File = Missing | Unreadable | Saved(chain: Chain)

  /** jwtExpiry reads the expiry claim of an access token, if it has one. */
  datatype Config =
    Config(authURL: string, file: string, access: string, refresh: string, jwtExpiry: string -> Option<int>)

  /** The answer to a refresh request as the client reads it. */
  datatype Reply =
    | Unreachable
    | Rejected
    | Garbled
    | Pair(access: string, refresh: string, expiresAt: int)

  datatype TokenError = NoCredential | CannotRotate | RefreshFailed | PersistFailed | FetchFailed
                        | BadStatus(status: nat)

  /** One minute, in milliseconds. */
  const REFRESH_SKEW := 60_000

  // The specification, on values

  datatype Client = Client(config: Config, chain: Chain, disk: File)

  /** What a start finds: the file outranks the environment, field by field where it is not empty. */
  ghost function Load(config: Config, disk: File): Chain {
    var env := Chain(config.access, config.refresh, config.jwtExpiry(config.access));
    if config.file == "" || !disk.Saved? then env
    else
      var kept := if disk.chain.access != "" then disk.chain else env;
      kept.(refresh := if disk.chain.refresh != "" then disk.chain.refresh else env.refresh)
  }

  ghost predicate Fresh(c: Chain, now: int) {
    c.expiresAt.Some? && now < c.expiresAt.value - REFRESH_SKEW
  }

  /** Whether an Access at this time sends the refresh token. */
  ghost predicate Presents(c: Client, now: int) {
    c.chain.refresh != "" && c.config.authURL != "" && !(c.chain.access != "" && Fresh(c.chain, now))
  }

  ghost predicate Complete(reply: Reply) {
    reply.Pair? && reply.access != "" && reply.refresh != ""
  }

  ghost function Rotated(config: Config, reply: Reply): Chain
    requires Complete(reply)
  {
    var expiry := config.jwtExpiry(reply.access);
    Chain(reply.access, reply.refresh, if expiry.Some? then expiry else Some(reply.expiresAt))
  }

  /** The client after an Access: memory follows every complete pair, the file only when it can be written. */
  ghost function AfterAccess(c: Client, now: int, reply: Reply, writable: bool): Client {
    if !Presents(c, now) || !Complete(reply) then c
    else
      var next := Rotated(c.config, reply);
      Client(c.config, next, if c.config.file != "" && writable then Saved(next) else c.disk)
  }

  /** The clock is read once before the rotation and once after a failed one. */
  ghost predicate Usable(c: Client, now: int, reply: Reply, writable: bool, later: int) {
    var next := AfterAccess(c, now, reply, writable).chain;
    if c.chain.access != "" && Fresh(c.chain, now) then true
    else if c.chain.refresh == "" then c.chain.access != ""
    else if Presents(c, now) && Complete(reply) && (c.config.file == "" || writable) then true
    else next.access != "" && next.expiresAt.Some? && later < next.expiresAt.value
  }

  ghost function Invalidated(c: Client): Client {
    c.(chain := c.chain.(expiresAt := None))
  }

  class Token {
    const config: Config
    var access: string
    var refresh: string
    var expiresAt: Option<int>
    var disk: File

    ghost function Value(): Client
      reads this
    {
      Client(config, Chain(access, refresh, expiresAt), disk)
    }

    constructor (config: Config, disk: File)
      ensures Value() == Client(config, Load(config, disk), disk)
      ensures var kept := config.file != "" && disk.Saved? && disk.chain.access != "";
              && access == (if kept then disk.chain.access else config.access)
              && expiresAt == (if kept then disk.chain.expiresAt else config.jwtExpiry(config.access))
      ensures refresh == if config.file != "" && disk.Saved? && disk.chain.refresh != "" then disk.chain.refresh
                         else config.refresh
    {
      this.config := config;
      this.access := config.access;
      this.refresh := config.refresh;
      this.expiresAt := config.jwtExpiry(config.access);
      this.disk := disk;
      new;
      ReadFile();
    }

    method ReadFile()
      requires access == config.access && refresh == config.refresh && expiresAt == config.jwtExpiry(config.access)
      modifies this
      ensures Value() == Client(config, Load(config, old(disk)), old(disk))
    {
      if config.file == "" {
        return;
      }
      match disk {
        case Saved(chain) =>
          if chain.refresh != "" {
            refresh := chain.refresh;
          }
          if chain.access != "" {
            access := chain.access;
            expiresAt := chain.expiresAt;
          }
        case Missing =>
        case Unreadable =>
      }
    }

    /** reply is what the server answers if asked, writable whether the file can be replaced. */
    method Access(now: int, reply: Reply, writable: bool, later: int) returns (r: Result<string, TokenError>)
      modifies this
      ensures Value() == AfterAccess(old(Value()), now, reply, writable)
      ensures r.Ok? <==> Usable(old(Value()), now, reply, writable, later)
      ensures r.Ok? ==> r.value == access && access != ""
      ensures old(access != "" && expiresAt.Some? && now < expiresAt.value - 60_000) ==>
                r == Ok(old(access)) && Value() == old(Value())
      ensures old(!(access != "" && expiresAt.Some? && now < expiresAt.value - 60_000)) ==>
                && (old(refresh) == "" ==>
                    Value() == old(Value()) && r == if access != "" then Ok(access) else Err(NoCredential))
                && (old(refresh) != "" && config.authURL != "" && reply.Pair? && reply.access != ""
                    && reply.refresh != "" ==>
                    && access == reply.access && refresh == reply.refresh
                    && expiresAt == (if config.jwtExpiry(access).Some? then config.jwtExpiry(access)
                                     else Some(reply.expiresAt))
                    && disk == (if config.file != "" && writable then Saved(Chain(access, refresh, expiresAt))
                                else old(disk))
                    && (r.Ok? <==>
                        config.file == "" || writable || (expiresAt.Some? && later < expiresAt.value)))
                && (old(refresh) != ""
                    && !(config.authURL != "" && reply.Pair? && reply.access != "" && reply.refresh != "") ==>
                    && Value() == old(Value())
                    && (r.Ok? <==> access != "" && expiresAt.Some? && later < expiresAt.value))
    {
      if access != "" && expiresAt.Some? && now < expiresAt.value - REFRESH_SKEW {
        return Ok(access);
      }
      if refresh == "" {
        if access != "" {
          return Ok(access);
        }
        return Err(NoCredential);
      }
      var failure := Rotate(now, reply, writable);
      if failure.Some? {
        if access != "" && expiresAt.Some? && later < expiresAt.value {
          return Ok(access);
        }
        return Err(failure.value);
      }
      return Ok(access);
    }

    method Rotate(ghost now: int, reply: Reply, writable: bool) returns (failure: Option<TokenError>)
      requires refresh != "" && !(access != "" && Fresh(Value().chain, now))
      modifies this
      ensures Value() == AfterAccess(old(Value()), now, reply, writable)
      ensures failure.None? <==> config.authURL != "" && Complete(reply) && (config.file == "" || writable)
    {
      if config.authURL == "" {
        return Some(CannotRotate);
      }
      match reply {
        case Pair(pairAccess, pairRefresh, pairExpiry) =>
          if pairAccess == "" || pairRefresh == "" {
            return Some(RefreshFailed);
          }
          access := pairAccess;
          refresh := pairRefresh;
          expiresAt := Some(pairExpiry);
          var expiry := config.jwtExpiry(access);
          if expiry.Some? {
            expiresAt := expiry;
          }
          failure := Persist(writable);
        case Unreachable => return Some(RefreshFailed);
        case Rejected => return Some(RefreshFailed);
        case Garbled => return Some(RefreshFailed);
      }
    }

    method Persist(writable: bool) returns (failure: Option<TokenError>)
      modifies `disk
      ensures disk == if config.file != "" && writable then Saved(Value().chain) else old(disk)
      ensures failure.None? <==> config.file == "" || writable
    {
      if config.file == "" {
        return None;
      }
      if !writable {
        return Some(PersistFailed);
      }
      disk := Saved(Chain(access, refresh, expiresAt));
      return None;
    }

    method Invalidate()
      modifies this
      ensures Value() == Invalidated(old(Value()))
      ensures access == old(access) && refresh == old(refresh) && expiresAt == None && disk == old(disk)
    {
      expiresAt := None;
    }

    method CanRotate() returns (b: bool)
      ensures b <==> refresh != ""
    {
      return refresh != "";
    }
  }

  // saasGet: one fetch, and one more after a 401

  datatype Fetch = Lost | Status(status: nat, body: string)

  datatype Attempt = Attempt(now: int, reply: Reply, writable: bool, later: int, fetch: Fetch)

  ghost function Try(c: Client, w: Attempt): Client {
    AfterAccess(c, w.now, w.reply, w.writable)
  }

  ghost predicate Sends(c: Client, w: Attempt) {
    Usable(c, w.now, w.reply, w.writable, w.later)
  }

  /** Whether the first attempt leads to a second. */
  ghost predicate Retries(c: Client, first: Attempt) {
    Sends(c, first) && first.fetch.Status? && first.fetch.status == 401 && Try(c, first).chain.refresh != ""
  }

  /** fetches counts the requests sent to the revenue service. */
  method SaasGet(token: Token, world: nat -> Attempt) returns (r: Result<string, TokenError>, fetches: nat)
    modifies token
    ensures var c := old(token.Value());
            && token.Value()
               == (if Retries(c, world(0)) then Try(Invalidated(Try(c, world(0))), world(1)) else Try(c, world(0)))
            && fetches == (if !Sends(c, world(0)) then 0
                           else if Retries(c, world(0)) && Sends(Invalidated(Try(c, world(0))), world(1)) then 2
                           else 1)
    ensures r.Ok? <==> fetches > 0 && world(fetches - 1).fetch.Status? && world(fetches - 1).fetch.status == 200
    ensures r.Ok? ==> r.value == world(fetches - 1).fetch.body
    ensures fetches <= 2
    ensures fetches == 2 ==> world(0).fetch.Status? && world(0).fetch.status == 401
    ensures fetches == 1 && world(0).fetch.Status? && world(0).fetch.status == 401 && token.refresh != "" ==>
              var reply := world(1).reply;
              !(token.config.authURL != "" && reply.Pair? && reply.access != "" && reply.refresh != ""
                && (token.config.file == "" || world(1).writable))
  {
    var attempt := 0;
    fetches := 0;
    while true
      invariant attempt == fetches <= 1
      invariant attempt == 0 ==> token.Value() == old(token.Value())
      invariant attempt == 1 ==> Retries(old(token.Value()), world(0))
                                 && token.Value() == Invalidated(Try(old(token.Value()), world(0)))
      decreases 1 - attempt
    {
      var w := world(attempt);
      var access := token.Access(w.now, w.reply, w.writable, w.later);
      if access.Err? {
        return Err(access.error), fetches;
      }
      fetches := fetches + 1;
      if w.fetch.Lost? {
        return Err(FetchFailed), fetches;
      }
      if w.fetch.status == 200 {
        return Ok(w.fetch.body), fetches;
      }
      var rotatable := token.CanRotate();
      if w.fetch.status == 401 && attempt == 0 && rotatable {
        token.Invalidate();
        attempt := attempt + 1;
        continue;
      }
      return Err(BadStatus(w.fetch.status)), fetches;
    }
  }

  /** A retry is sent only with an access token of a pair received after the rejection. */
  lemma RetryUsesNewToken(c: Client, first: Attempt, second: Attempt)
    requires Retries(c, first) && Sends(Invalidated(Try(c, first)), second)
    ensures var after := Try(Invalidated(Try(c, first)), second);
            Complete(second.reply) && after.chain.access == second.reply.access
                && after.chain.refresh == second.reply.refresh
  {
    var c1 := Invalidated(Try(c, first));
    assert !Fresh(c1.chain, second.now);
  }

  // Whole runs against the server

  /** How the server treats the current token when it is presented; a rotation's reply may not arrive. */
  datatype Answer =
    | NotReached
    | Refused
    | Rotates(access: string, refresh: string, expiresAt: int, arrived: bool)

  /** The last rotation the server made. */
  datatype Rotation = Rotation(arrived: bool, persisted: bool)

  /** current is the only refresh token the server accepts; replays counts presented tokens it had retired. */
  datatype World =
    World(client: Client, current: string, retired: set<string>, last: Option<Rotation>, restarted: bool, replays: nat)

  datatype WorldStep =
    | Access(now: int, answer: Answer, writable: bool)
    | Invalidate
    | Restart

  /** A server never issues an empty token or one it has issued before. */
  ghost predicate Issues(w: World, answer: Answer) {
    answer.Rotates? && answer.access != "" && answer.refresh != "" && answer.refresh != w.current
        && answer.refresh !in w.retired
  }

  ghost function StepAccess(w: World, now: int, answer: Answer, writable: bool): World {
    if !Presents(w.client, now) then w
    else if w.client.chain.refresh != w.current then
      w.(replays := w.replays + if w.client.chain.refresh in w.retired then 1 else 0)
    else if !Issues(w, answer) then w
    else
      var reply := if answer.arrived then Pair(answer.access, answer.refresh, answer.expiresAt) else Unreachable;
      World(AfterAccess(w.client, now, reply, writable), answer.refresh, w.retired + {w.current},
            Some(Rotation(answer.arrived, w.client.config.file != "" && writable)), false, w.replays)
  }

  ghost function Step(w: World, s: WorldStep): World {
    match s
    case Access(now, answer, writable) => StepAccess(w, now, answer, writable)
    case Invalidate => w.(client := Invalidated(w.client))
    case Restart => w.(client := w.client.(chain := Load(w.client.config, w.client.disk)), restarted := true)
  }

  ghost function Run(w: World, steps: seq<WorldStep>): World {
    if steps == [] then w else Step(Run(w, steps[..|steps| - 1]), steps[|steps| - 1])
  }

  /** A client started on the token the server expects. */
  ghost function Start(config: Config, disk: File, retired: set<string>): World {
    World(Client(config, Load(config, disk), disk), Load(config, disk).refresh, retired, None, false, 0)
  }

  ghost predicate Started(w: World) {
    w == Start(w.client.config, w.client.disk, w.retired) && w.current != "" && w.current !in w.retired
  }

  ghost predicate MemoryBehind(w: World) {
    w.last.Some? && (!w.last.value.arrived || (!w.last.value.persisted && w.restarted))
  }

  ghost predicate DiskBehind(w: World) {
    w.last.Some? && !(w.last.value.arrived && w.last.value.persisted)
  }

  ghost predicate Inv(w: World) {
    && w.current != "" && w.current !in w.retired
    && (if MemoryBehind(w) then w.client.chain.refresh in w.retired else w.client.chain.refresh == w.current)
    && (var next := Load(w.client.config, w.client.disk).refresh;
        if DiskBehind(w) then next in w.retired else next == w.current)
  }

  lemma StepKeepsInv(w: World, s: WorldStep)
    requires Inv(w)
    ensures Inv(Step(w, s))
  {
  }

  lemma {:induction false} RunKeepsInv(w: World, steps: seq<WorldStep>)
    requires Started(w)
    ensures Inv(Run(w, steps))
  {
    hide Step, Inv;
    if steps != [] {
      RunKeepsInv(w, steps[..|steps| - 1]);
      StepKeepsInv(Run(w, steps[..|steps| - 1]), steps[|steps| - 1]);
    } else {
      StartInv(w);
    }
  }

  lemma StartInv(w: World)
    requires Started(w)
    ensures Inv(w)
  {
  }

  /** Exactly when the client holds a token the server has replaced: the last rotation's reply was lost, or
      it was not written to the file and the client has started again since. */
  lemma HoldsRetiredExactly(w: World, steps: seq<WorldStep>)
    requires Started(w)
    ensures var x := Run(w, steps);
            x.client.chain.refresh in x.retired
            <==> x.last.Some? && (!x.last.value.arrived || (!x.last.value.persisted && x.restarted))
  {
    RunKeepsInv(w, steps);
  }

  /** The step asks for a rotation while the last one's reply was lost, or was not written to the file and the
      client has started again since. */
  ghost predicate AsksBehind(w: World, s: WorldStep) {
    s.Access? && Presents(w.client, s.now) && MemoryBehind(w)
  }

  ghost predicate AsksBehindAt(w: World, steps: seq<WorldStep>, i: nat)
    requires i < |steps|
  {
    AsksBehind(Run(w, steps[..i]), steps[i])
  }

  lemma StepReplays(w: World, s: WorldStep)
    requires Inv(w)
    ensures Step(w, s).replays == w.replays + if AsksBehind(w, s) then 1 else 0
  {
  }

  /** A run presents no replaced token if and only if no rotation is asked for while the client is behind. */
  lemma {:induction false} ReplaysExactly(w: World, steps: seq<WorldStep>)
    requires Started(w)
    ensures Run(w, steps).replays == 0 <==> forall i :: 0 <= i < |steps| ==> !AsksBehindAt(w, steps, i)
  {
    hide Step, Inv, AsksBehind;
    if steps != [] {
      var n := |steps| - 1;
      var front := steps[..n];
      ReplaysExactly(w, front);
      RunKeepsInv(w, front);
      StepReplays(Run(w, front), steps[n]);
      forall i | 0 <= i < n
        ensures AsksBehindAt(w, steps, i) <==> AsksBehindAt(w, front, i)
      {
        assert front[..i] == steps[..i] && front[i] == steps[i];
      }
      assert AsksBehindAt(w, steps, n) <==> AsksBehind(Run(w, front), steps[n]);
    }
  }

  /** Every accepted reply arrives and is persisted. */
  ghost predicate Faithful(config: Config, steps: seq<WorldStep>) {
    config.file != "" && forall s :: s in steps && s.Access? && s.answer.Rotates? ==> s.answer.arrived && s.writable
  }

  /** Then no run of accesses, invalidations and restarts presents a replaced token. */
  lemma {:induction false} NeverReplays(w: World, steps: seq<WorldStep>)
    requires Started(w) && Faithful(w.client.config, steps)
    ensures var x := Run(w, steps);
            x.replays == 0 && x.client.chain.refresh == x.current && !DiskBehind(x)
                && x.client.config == w.client.config
  {
    if steps != [] {
      var front := steps[..|steps| - 1];
      NeverReplays(w, front);
      RunKeepsInv(w, front);
      RunKeepsInv(w, steps);
      assert steps[|steps| - 1] in steps;
    }
  }

  /** Without a restart, delivery alone is enough: the file does not matter. */
  lemma {:induction false} NeverReplaysInOneLife(w: World, steps: seq<WorldStep>)
    requires Started(w)
    requires forall s :: s in steps ==> !s.Restart? && (s.Access? && s.answer.Rotates? ==> s.answer.arrived)
    ensures var x := Run(w, steps); x.replays == 0 && x.client.chain.refresh == x.current && !x.restarted
  {
    if steps != [] {
      var front := steps[..|steps| - 1];
      NeverReplaysInOneLife(w, front);
      RunKeepsInv(w, front);
      RunKeepsInv(w, steps);
      assert steps[|steps| - 1] in steps;
    }
  }

  // Each assumption is needed

  lemma LostReplyReplays(w: World, access: string, refresh: string)
    requires Started(w) && Presents(w.client, 0) && Issues(w, Rotates(access, refresh, 0, false))
    ensures Run(w, [Access(0, Rotates(access, refresh, 0, false), true), Access(0, NotReached, true)]).replays == 1
  {
    var s1 := Access(0, Rotates(access, refresh, 0, false), true);
    var s2 := Access(0, NotReached, true);
    assert [s1, s2][..1] == [s1] && [s1][..0] == [];
    assert Run(w, [s1]) == Step(Run(w, []), s1);
    assert Run(w, [s1, s2]) == Step(Run(w, [s1]), s2);
  }

  /** A rotation that was not written, then a restart: the token found at the start is replayed. */
  lemma UnsavedRestartReplays(w: World, access: string, refresh: string, writable: bool)
    requires Started(w) && Presents(w.client, 0) && Issues(w, Rotates(access, refresh, 0, true))
    requires w.client.config.file == "" || !writable
    ensures var rotation := Access(0, Rotates(access, refresh, 0, true), writable);
            Run(w, [rotation, Restart, Access(0, NotReached, true)]).replays == 1
  {
    var s1 := Access(0, Rotates(access, refresh, 0, true), writable);
    var s3 := Access(0, NotReached, true);
    assert [s1, Restart, s3][..2] == [s1, Restart] && [s1, Restart][..1] == [s1] && [s1][..0] == [];
    assert Run(w, [s1]) == Step(Run(w, []), s1);
    assert Run(w, [s1, Restart]) == Step(Run(w, [s1]), Restart);
    assert Run(w, [s1, Restart, s3]) == Step(Run(w, [s1, Restart]), s3);
  }
}
