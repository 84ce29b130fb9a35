/** Single-use refresh tokens on the server (modules/auth/service.go, repository.go): the token table,
    the calls on it, and many calls in flight. */
module RefreshTokens {
  import opened Wrappers
  import opened Sets

  /** A minted refresh token: its unique id and the user its claims name. Hashing is injective, so a
      token is its own key in the table. */
  datatype Token = Token(serial: nat, user: string)

  /** A row of refresh_tokens; session names the login the token descends from. */
  datatype Row = Row(user: string, expires: nat, revoked: bool, session: nat)

  type Table = map<Token, Row>

  datatype AuthError = InvalidCredential | NotFound

  // Repository calls as functions of the table

  predicate Usable(table: Table, t: Token, now: nat) {
    t in table && !table[t].revoked && now < table[t].expires
  }

  /** The compare-and-swap: the update counts one row exactly when the token was not revoked yet. */
  predicate WinsRevoke(table: Table, t: Token) {
    t in table && !table[t].revoked
  }

  function Revoke(table: Table, t: Token): Table {
    if WinsRevoke(table, t) then table[t := table[t].(revoked := true)] else table
  }

  function RevokeAll(table: Table, user: string): Table {
    map t | t in table :: if table[t].user == user then table[t].(revoked := true) else table[t]
  }

  /** The table after a refresh: an unusable token changes nothing, a usable one is spent, and its
      replacement is stored unless the table has it already. */
  function AfterRefresh(table: Table, presented: Token, minted: Token, now: nat, ttl: nat): Table {
    if !Usable(table, presented, now) then table
    else if minted in table then Revoke(table, presented)
    else Revoke(table, presented)[minted := Row(minted.user, now + ttl, false, table[presented].session)]
  }

  class TokenRepository {
    var table: Table

    constructor ()
      ensures table == map[]
    {
      table := map[];
    }

    method SaveRefreshToken(t: Token, row: Row) returns (saved: bool)
      modifies this
      ensures saved <==> t !in old(table)
      ensures table == if saved then old(table)[t := row] else old(table)
    {
      if t in table {
        return false;
      }
      table := table[t := row];
      return true;
    }

    method FindRefreshToken(t: Token, now: nat) returns (row: Option<Row>)
      ensures row.Some? <==> t in table && !table[t].revoked && now < table[t].expires
      ensures row.Some? ==> row.value == table[t]
    {
      if t in table && !table[t].revoked && now < table[t].expires {
        return Some(table[t]);
      }
      return None;
    }

    method RevokeRefreshToken(t: Token) returns (won: bool)
      modifies this
      ensures won <==> t in old(table) && !old(table)[t].revoked
      ensures table == if won then old(table)[t := old(table)[t].(revoked := true)] else old(table)
    {
      if t in table && !table[t].revoked {
        table := table[t := table[t].(revoked := true)];
        return true;
      }
      return false;
    }

    method RevokeRefreshTokensByUserID(user: string)
      modifies this
      ensures table.Keys == old(table).Keys
      ensures forall t :: t in old(table) ==>
                table[t] == if old(table)[t].user == user then old(table)[t].(revoked := true) else old(table)[t]
    {
      var todo := table.Keys;
      ghost var before := table;
      while todo != {}
        invariant todo <= before.Keys == table.Keys
        invariant forall t :: t in before ==>
                    table[t] == if t !in todo && before[t].user == user then before[t].(revoked := true) else before[t]
        decreases todo
      {
        var t :| t in todo;
        todo := todo - {t};
        if table[t].user == user {
          table := table[t := table[t].(revoked := true)];
        }
      }
    }
  }

  class AuthService {
    const repository: TokenRepository
    const refreshTtl: nat

    constructor (repository: TokenRepository, refreshTtl: nat)
      ensures this.repository == repository && this.refreshTtl == refreshTtl
    {
      this.repository := repository;
      this.refreshTtl := refreshTtl;
    }

    /** Login after the password check: minted is the fresh token of the new session. */
    method Login(minted: Token, now: nat) returns (r: Result<Token, AuthError>)
      modifies repository
      ensures var before := old(repository.table);
              if minted in before then r.Err? && repository.table == before
              else r == Ok(minted)
                   && repository.table == before[minted := Row(minted.user, now + refreshTtl, false, minted.serial)]
    {
      var saved := repository.SaveRefreshToken(minted, Row(minted.user, now + refreshTtl, false, minted.serial));
      if !saved {
        return Err(InvalidCredential);
      }
      return Ok(minted);
    }

    /** Refresh: the presented token is spent before its replacement is stored. */
    method Refresh(presented: Token, minted: Token, now: nat) returns (r: Result<Token, AuthError>)
      requires minted.user == presented.user
      modifies repository
      ensures repository.table == AfterRefresh(old(repository.table), presented, minted, now, refreshTtl)
      ensures var before := old(repository.table);
              var live := presented in before && !before[presented].revoked && now < before[presented].expires;
              && (r == Ok(minted) <==> live && minted !in before) && (r.Ok? ==> r.value == minted)
              && (!live ==> repository.table == before && r == Err(NotFound))
              && (live ==>
                  var spent := before[presented := before[presented].(revoked := true)];
                  repository.table
                  == if minted in before then spent
                     else spent[minted := Row(minted.user, now + refreshTtl, false, before[presented].session)])
    {
      var row := repository.FindRefreshToken(presented, now);
      if row.None? {
        return Err(NotFound);
      }
      var revoked := repository.RevokeRefreshToken(presented);
      if !revoked {
        return Err(InvalidCredential);
      }
      var saved := repository.SaveRefreshToken(minted, Row(minted.user, now + refreshTtl, false, row.value.session));
      if !saved {
        return Err(InvalidCredential);
      }
      return Ok(minted);
    }

    method Logout(presented: Token, everywhere: bool)
      modifies repository
      ensures repository.table == if everywhere then RevokeAll(old(repository.table), presented.user)
                                  else Revoke(old(repository.table), presented)
      ensures repository.table.Keys == old(repository.table).Keys
      ensures forall t :: t in old(repository.table) ==>
                var before := old(repository.table)[t];
                repository.table[t]
                == if (if everywhere then before.user == presented.user else t == presented)
                   then before.(revoked := true) else before
    {
      if everywhere {
        repository.RevokeRefreshTokensByUserID(presented.user);
        return;
      }
      var _ := repository.RevokeRefreshToken(presented);
    }
  }

  // Many calls in flight

  /** A rotation carries the session of the token it spent. */
  datatype Phase =
    | LoggingIn(minted: Token)                               // before SaveRefreshToken
    | Found(presented: Token)                                // after FindRefreshToken
    | Won(user: string, session: nat)                        // after the revoke it won
    | Minted(minted: Token, session: nat)                    // before SaveRefreshToken

  /** issued counts minted tokens; logins maps each session stored to its user; wins collects the revokes
      that counted a row. */
  datatype Auth =
    Auth(table: Table, issued: nat, calls: map<nat, Phase>, logins: map<nat, string>, wins: multiset<Token>)

  datatype AuthStep =
    | BeginLogin(k: nat, user: string)
    | SaveLogin(k: nat, expires: nat)
    | Find(k: nat, presented: Token, now: nat)
    | Cas(k: nat)
    | Mint(k: nat)
    | SaveRotation(k: nat, expires: nat)
    | LogoutOne(presented: Token)
    | LogoutEverywhere(user: string)
    | Abandon(k: nat)

  const START := Auth(map[], 0, map[], map[], multiset{})

  function StepBeginLogin(a: Auth, k: nat, user: string): Auth {
    if k in a.calls then a
    else a.(issued := a.issued + 1, calls := a.calls[k := LoggingIn(Token(a.issued, user))])
  }

  function StepSaveLogin(a: Auth, k: nat, expires: nat): Auth {
    if k !in a.calls || !a.calls[k].LoggingIn? || a.calls[k].minted in a.table then a
    else
      var t := a.calls[k].minted;
      a.(table := a.table[t := Row(t.user, expires, false, t.serial)], logins := a.logins[t.serial := t.user],
         calls := a.calls - {k})
  }

  function StepFind(a: Auth, k: nat, presented: Token, now: nat): Auth {
    if k in a.calls || !Usable(a.table, presented, now) then a
    else a.(calls := a.calls[k := Found(presented)])
  }

  function StepCas(a: Auth, k: nat): Auth {
    if k !in a.calls || !a.calls[k].Found? then a
    else
      var t := a.calls[k].presented;
      if WinsRevoke(a.table, t)
      then a.(table := Revoke(a.table, t), calls := a.calls[k := Won(t.user, a.table[t].session)],
              wins := a.wins + multiset{t})
      else a.(calls := a.calls - {k})
  }

  function StepMint(a: Auth, k: nat): Auth {
    if k !in a.calls || !a.calls[k].Won? then a
    else a.(issued := a.issued + 1,
            calls := a.calls[k := Minted(Token(a.issued, a.calls[k].user), a.calls[k].session)])
  }

  function StepSaveRotation(a: Auth, k: nat, expires: nat): Auth {
    if k !in a.calls || !a.calls[k].Minted? || a.calls[k].minted in a.table then a
    else
      var c := a.calls[k];
      a.(table := a.table[c.minted := Row(c.minted.user, expires, false, c.session)], calls := a.calls - {k})
  }

  function StepLogoutOne(a: Auth, presented: Token): Auth {
    if WinsRevoke(a.table, presented)
    then a.(table := Revoke(a.table, presented), wins := a.wins + multiset{presented})
    else a
  }

  function StepLogoutEverywhere(a: Auth, user: string): Auth {
    a.(table := RevokeAll(a.table, user))
  }

  function Step(a: Auth, s: AuthStep): Auth {
    match s
    case BeginLogin(k, user) => StepBeginLogin(a, k, user)
    case SaveLogin(k, expires) => StepSaveLogin(a, k, expires)
    case Find(k, presented, now) => StepFind(a, k, presented, now)
    case Cas(k) => StepCas(a, k)
    case Mint(k) => StepMint(a, k)
    case SaveRotation(k, expires) => StepSaveRotation(a, k, expires)
    case LogoutOne(presented) => StepLogoutOne(a, presented)
    case LogoutEverywhere(user) => StepLogoutEverywhere(a, user)
    case Abandon(k) => a.(calls := a.calls - {k})
  }

  function Run(a: Auth, steps: seq<AuthStep>): Auth {
    if steps == [] then a else Step(Run(a, steps[..|steps| - 1]), steps[|steps| - 1])
  }

  // The invariant: a login has at most one token that can still be spent, or one rotation under way

  predicate Live(a: Auth, t: Token) {
    t in a.table && !a.table[t].revoked
  }

  predicate Rotating(a: Auth, k: nat) {
    k in a.calls && (a.calls[k].Won? || a.calls[k].Minted?)
  }

  predicate HasMinted(a: Auth, k: nat) {
    k in a.calls && (a.calls[k].LoggingIn? || a.calls[k].Minted?)
  }

  /** The user a rotation is for. */
  function Owner(c: Phase): string
    requires c.Won? || c.Minted?
  {
    if c.Won? then c.user else c.minted.user
  }

  predicate Started(a: Auth, session: nat, user: string) {
    session in a.logins && a.logins[session] == user
  }

  ghost predicate RowsOk(a: Auth) {
    forall t :: t in a.table ==>
      t.serial < a.issued && a.table[t].user == t.user && Started(a, a.table[t].session, t.user)
  }

  /** A token still to be stored has a serial no row, login or other call has. */
  ghost predicate MintedOk(a: Auth) {
    && (forall k :: HasMinted(a, k) ==> a.calls[k].minted.serial < a.issued && a.calls[k].minted !in a.table)
    && (forall k :: k in a.calls && a.calls[k].LoggingIn? ==> a.calls[k].minted.serial !in a.logins)
    && (forall j, k | HasMinted(a, j) && HasMinted(a, k) ::
        a.calls[j].minted.serial == a.calls[k].minted.serial ==> j == k)
    && (forall s :: s in a.logins ==> s < a.issued)
  }

  ghost predicate RotationsOk(a: Auth) {
    forall k :: Rotating(a, k) ==> Started(a, a.calls[k].session, Owner(a.calls[k]))
  }

  ghost predicate OnePerLogin(a: Auth) {
    && (forall t, u :: Live(a, t) && Live(a, u) && a.table[t].session == a.table[u].session ==> t == u)
    && (forall t, k :: Live(a, t) && Rotating(a, k) ==> a.table[t].session != a.calls[k].session)
    && (forall j, k :: Rotating(a, j) && Rotating(a, k) && a.calls[j].session == a.calls[k].session ==> j == k)
  }

  ghost predicate WinsOk(a: Auth) {
    forall t :: a.wins[t] <= 1 && (a.wins[t] == 1 ==> t in a.table && a.table[t].revoked)
  }

  ghost predicate Inv(a: Auth) {
    RowsOk(a) && MintedOk(a) && RotationsOk(a) && OnePerLogin(a) && WinsOk(a)
  }

  /** Dropping calls, or restarting them before their revoke, keeps the invariant. */
  lemma FewerCalls(a: Auth, calls: map<nat, Phase>)
    requires Inv(a)
    requires forall k :: k in calls && !calls[k].Found? ==> k in a.calls && calls[k] == a.calls[k]
    ensures Inv(a.(calls := calls))
  {
    var b := a.(calls := calls);
    assert forall j :: HasMinted(b, j) ==> HasMinted(a, j) && b.calls[j] == a.calls[j];
    assert forall j :: Rotating(b, j) ==> Rotating(a, j) && b.calls[j] == a.calls[j];
  }

  /** A table in which more rows are revoked and nothing else differs. */
  ghost predicate Spends(before: Table, after: Table) {
    before.Keys == after.Keys
    && forall t :: t in before ==>
      && after[t].user == before[t].user && after[t].session == before[t].session
      && (before[t].revoked ==> after[t].revoked)
  }

  lemma SpendingKeeps(a: Auth, table: Table, wins: multiset<Token>)
    requires Inv(a) && Spends(a.table, table) && WinsOk(a.(table := table, wins := wins))
    ensures Inv(a.(table := table, wins := wins))
  {
    var b := a.(table := table, wins := wins);
    assert forall t :: Live(b, t) ==> Live(a, t);
    assert forall j :: HasMinted(b, j) <==> HasMinted(a, j);
    assert forall j :: Rotating(b, j) <==> Rotating(a, j);
  }

  lemma BeginLoginKeeps(a: Auth, k: nat, user: string)
    requires Inv(a)
    ensures Inv(StepBeginLogin(a, k, user))
  {
    var b := StepBeginLogin(a, k, user);
    if b != a {
      assert forall j :: Rotating(b, j) <==> Rotating(a, j) && b.calls[j] == a.calls[j];
      assert forall j :: HasMinted(b, j) && j != k ==> HasMinted(a, j) && b.calls[j] == a.calls[j];
    }
  }

  /** A login none of whose tokens are stored yet. */
  lemma LoginOpens(a: Auth, session: nat, user: string)
    requires Inv(a) && session < a.issued && session !in a.logins
    requires forall k :: HasMinted(a, k) ==> a.calls[k].minted.serial != session
    ensures Inv(a.(logins := a.logins[session := user]))
  {
    var b := a.(logins := a.logins[session := user]);
    assert forall s, u :: Started(a, s, u) ==> Started(b, s, u);
    assert forall j :: Rotating(b, j) <==> Rotating(a, j);
    assert forall j :: HasMinted(b, j) <==> HasMinted(a, j);
    assert forall t :: Live(b, t) <==> Live(a, t);
  }

  function WithRow(a: Auth, t: Token, expires: nat, session: nat): Auth {
    a.(table := a.table[t := Row(t.user, expires, false, session)])
  }

  lemma RowStoredOnce(a: Auth, t: Token, expires: nat, session: nat)
    requires OnePerLogin(a)
    requires forall u :: Live(a, u) ==> a.table[u].session != session
    requires forall k :: Rotating(a, k) ==> a.calls[k].session != session
    ensures OnePerLogin(WithRow(a, t, expires, session))
  {
    var b := WithRow(a, t, expires, session);
    assert forall j :: Rotating(b, j) <==> Rotating(a, j);
    assert forall u :: Live(b, u) && u != t ==> Live(a, u) && b.table[u] == a.table[u];
  }

  /** A login nobody holds takes the token stored for it. */
  lemma RowStored(a: Auth, t: Token, expires: nat, session: nat)
    requires Inv(a) && t !in a.table && t.serial < a.issued && Started(a, session, t.user)
    requires forall k :: HasMinted(a, k) ==> a.calls[k].minted.serial != t.serial
    requires forall u :: Live(a, u) ==> a.table[u].session != session
    requires forall k :: Rotating(a, k) ==> a.calls[k].session != session
    ensures Inv(WithRow(a, t, expires, session))
  {
    RowStoredOnce(a, t, expires, session);
    hide OnePerLogin;
    var b := WithRow(a, t, expires, session);
    assert forall s, u :: Started(a, s, u) <==> Started(b, s, u);
    assert forall j :: Rotating(b, j) <==> Rotating(a, j);
    assert forall j :: HasMinted(b, j) <==> HasMinted(a, j);
  }

  lemma NobodyHolds(a: Auth, session: nat)
    requires RowsOk(a) && RotationsOk(a) && session !in a.logins
    ensures forall u :: Live(a, u) ==> a.table[u].session != session
    ensures forall k :: Rotating(a, k) ==> a.calls[k].session != session
  {
  }

  lemma SaveLoginKeeps(a: Auth, k: nat, expires: nat)
    requires Inv(a)
    ensures Inv(StepSaveLogin(a, k, expires))
  {
    if k in a.calls && a.calls[k].LoggingIn? && a.calls[k].minted !in a.table {
      var t := a.calls[k].minted;
      assert HasMinted(a, k);
      FewerCalls(a, a.calls - {k});
      var c := a.(calls := a.calls - {k});
      assert forall j :: HasMinted(c, j) ==> HasMinted(a, j);
      hide RowsOk, RotationsOk, WinsOk, OnePerLogin;
      NobodyHolds(c, t.serial);
      LoginOpens(c, t.serial, t.user);
      var d := c.(logins := c.logins[t.serial := t.user]);
      assert forall j :: HasMinted(d, j) ==> HasMinted(c, j);
      assert forall u :: Live(d, u) ==> Live(c, u);
      assert forall j :: Rotating(d, j) ==> Rotating(c, j);
      RowStored(d, t, expires, t.serial);
    }
  }

  lemma FindKeeps(a: Auth, k: nat, presented: Token, now: nat)
    requires Inv(a)
    ensures Inv(StepFind(a, k, presented, now))
  {
    hide Inv;
    FewerCalls(a, if k in a.calls then a.calls else a.calls[k := Found(presented)]);
  }

  lemma WinOnce(a: Auth, t: Token)
    requires WinsOk(a) && WinsRevoke(a.table, t)
    ensures Spends(a.table, Revoke(a.table, t))
    ensures WinsOk(a.(table := Revoke(a.table, t), wins := a.wins + multiset{t}))
  {
  }

  /** The revoked token's login passes to the rotation. */
  lemma RotationBegins(a: Auth, k: nat, user: string, session: nat)
    requires Inv(a) && k !in a.calls && Started(a, session, user)
    requires forall t :: Live(a, t) ==> a.table[t].session != session
    requires forall j :: Rotating(a, j) ==> a.calls[j].session != session
    ensures Inv(a.(calls := a.calls[k := Won(user, session)]))
  {
    var b := a.(calls := a.calls[k := Won(user, session)]);
    assert forall j :: Rotating(b, j) && j != k ==> Rotating(a, j) && b.calls[j] == a.calls[j];
    assert forall j :: HasMinted(b, j) ==> HasMinted(a, j) && b.calls[j] == a.calls[j];
    assert forall t :: Live(b, t) <==> Live(a, t);
  }

  lemma RowStarted(a: Auth, t: Token)
    requires RowsOk(a) && t in a.table
    ensures Started(a, a.table[t].session, t.user)
  {
  }

  lemma SpentFreesLogin(a: Auth, t: Token)
    requires OnePerLogin(a) && Live(a, t)
    ensures forall u :: Live(a, u) && u != t ==> a.table[u].session != a.table[t].session
    ensures forall j :: Rotating(a, j) ==> a.calls[j].session != a.table[t].session
  {
  }

  lemma CasKeeps(a: Auth, k: nat)
    requires Inv(a)
    ensures Inv(StepCas(a, k))
  {
    hide RowsOk, MintedOk, RotationsOk, WinsOk, OnePerLogin, Spends;
    if k in a.calls && a.calls[k].Found? {
      var t := a.calls[k].presented;
      FewerCalls(a, a.calls - {k});
      var c := a.(calls := a.calls - {k});
      if WinsRevoke(a.table, t) {
        WinOnce(c, t);
        SpendingKeeps(c, Revoke(a.table, t), a.wins + multiset{t});
        var d := c.(table := Revoke(a.table, t), wins := a.wins + multiset{t});
        var session := a.table[t].session;
        RowStarted(a, t);
        SpentFreesLogin(a, t);
        assert forall u :: Live(d, u) ==> Live(a, u) && u != t;
        assert forall j :: Rotating(d, j) ==> Rotating(a, j);
        RotationBegins(d, k, t.user, session);
        assert StepCas(a, k) == d.(calls := d.calls[k := Won(t.user, session)]);
      }
    }
  }

  lemma MintKeeps(a: Auth, k: nat)
    requires Inv(a)
    ensures Inv(StepMint(a, k))
  {
    var b := StepMint(a, k);
    if b != a {
      assert Rotating(a, k);
      assert forall j :: Rotating(b, j) <==> Rotating(a, j);
      assert forall j :: Rotating(b, j) ==>
               b.calls[j].session == a.calls[j].session && Owner(b.calls[j]) == Owner(a.calls[j]);
      assert forall j :: HasMinted(b, j) && j != k ==> HasMinted(a, j) && b.calls[j] == a.calls[j];
      assert forall t :: Live(b, t) <==> Live(a, t);
      assert forall s, u :: Started(a, s, u) <==> Started(b, s, u);
    }
  }

  lemma SaveRotationKeeps(a: Auth, k: nat, expires: nat)
    requires Inv(a)
    ensures Inv(StepSaveRotation(a, k, expires))
  {
    if k in a.calls && a.calls[k].Minted? && a.calls[k].minted !in a.table {
      assert HasMinted(a, k) && Rotating(a, k);
      FewerCalls(a, a.calls - {k});
      hide RowsOk, WinsOk;
      var c := a.(calls := a.calls - {k});
      assert forall j :: HasMinted(c, j) ==> HasMinted(a, j);
      assert forall u :: Live(c, u) ==> Live(a, u);
      assert forall j :: Rotating(c, j) ==> Rotating(a, j) && j != k;
      RowStored(c, a.calls[k].minted, expires, a.calls[k].session);
    }
  }

  lemma LogoutOneKeeps(a: Auth, presented: Token)
    requires Inv(a)
    ensures Inv(StepLogoutOne(a, presented))
  {
    if WinsRevoke(a.table, presented) {
      WinOnce(a, presented);
      SpendingKeeps(a, Revoke(a.table, presented), a.wins + multiset{presented});
    }
  }

  lemma LogoutEverywhereKeeps(a: Auth, user: string)
    requires Inv(a)
    ensures Inv(StepLogoutEverywhere(a, user))
  {
    SpendingKeeps(a, RevokeAll(a.table, user), a.wins);
  }

  lemma AbandonKeeps(a: Auth, k: nat)
    requires Inv(a)
    ensures Inv(a.(calls := a.calls - {k}))
  {
    FewerCalls(a, a.calls - {k});
  }

  lemma StepKeepsInv(a: Auth, s: AuthStep)
    requires Inv(a)
    ensures Inv(Step(a, s))
  {
    hide Inv, StepBeginLogin, StepSaveLogin, StepFind, StepCas, StepMint, StepSaveRotation, StepLogoutOne,
         StepLogoutEverywhere;
    match s
    case BeginLogin(k, user) => BeginLoginKeeps(a, k, user);
    case SaveLogin(k, expires) => SaveLoginKeeps(a, k, expires);
    case Find(k, presented, now) => FindKeeps(a, k, presented, now);
    case Cas(k) => CasKeeps(a, k);
    case Mint(k) => MintKeeps(a, k);
    case SaveRotation(k, expires) => SaveRotationKeeps(a, k, expires);
    case LogoutOne(presented) => LogoutOneKeeps(a, presented);
    case LogoutEverywhere(user) => LogoutEverywhereKeeps(a, user);
    case Abandon(k) => AbandonKeeps(a, k);
  }

  lemma {:induction false} RunKeepsInv(steps: seq<AuthStep>)
    ensures Inv(Run(START, steps))
  {
    hide Inv, Step;
    if steps != [] {
      RunKeepsInv(steps[..|steps| - 1]);
      StepKeepsInv(Run(START, steps[..|steps| - 1]), steps[|steps| - 1]);
    } else {
      StartInv();
    }
  }

  lemma StartInv()
    ensures Inv(START)
  {
  }

  // Main results

  /** Under every interleaving each stored token is spent at most once, and a spent token is revoked. */
  lemma SpentAtMostOnce(steps: seq<AuthStep>, t: Token)
    ensures var a := Run(START, steps); a.wins[t] <= 1 && (a.wins[t] == 1 ==> t in a.table && a.table[t].revoked)
  {
    RunKeepsInv(steps);
  }

  ghost function LiveTokens(a: Auth, user: string): set<Token> {
    set t | t in a.table && t.user == user && Live(a, t)
  }

  ghost function Rotations(a: Auth, user: string): set<nat> {
    set k | k in a.calls && Rotating(a, k) && Owner(a.calls[k]) == user
  }

  ghost function LoginsOf(a: Auth, user: string): set<nat> {
    set s | s in a.logins && a.logins[s] == user
  }

  /** An injective image is as large as its source. */
  lemma {:induction false} ImageSize<T>(xs: set<T>, f: T -> nat, image: set<nat>)
    requires forall x :: x in xs ==> f(x) in image
    requires forall x, y :: x in xs && y in xs && f(x) == f(y) ==> x == y
    requires forall s :: s in image ==> exists x :: x in xs && f(x) == s
    ensures |xs| == |image|
  {
    if xs == {} {
      assert image == {};
    } else {
      var x :| x in xs;
      forall s | s in image - {f(x)}
        ensures exists y :: y in xs - {x} && f(y) == s
      {
        var y :| y in xs && f(y) == s;
        assert y in xs - {x};
      }
      ImageSize(xs - {x}, f, image - {f(x)});
    }
  }

  function SessionOfToken(a: Auth, t: Token): nat {
    if t in a.table then a.table[t].session else 0
  }

  function SessionOfCall(a: Auth, k: nat): nat {
    if Rotating(a, k) then a.calls[k].session else 0
  }

  /** Live tokens and rotations of one user hold different logins of that user. */
  lemma DifferentLogins(a: Auth, user: string)
    requires RowsOk(a) && RotationsOk(a) && OnePerLogin(a)
    ensures forall t :: t in LiveTokens(a, user) ==> SessionOfToken(a, t) in LoginsOf(a, user)
    ensures forall k :: k in Rotations(a, user) ==> SessionOfCall(a, k) in LoginsOf(a, user)
    ensures forall t, u | t in LiveTokens(a, user) && u in LiveTokens(a, user) ::
              SessionOfToken(a, t) == SessionOfToken(a, u) ==> t == u
    ensures forall j, k | j in Rotations(a, user) && k in Rotations(a, user) ::
              SessionOfCall(a, j) == SessionOfCall(a, k) ==> j == k
    ensures forall t, k :: t in LiveTokens(a, user) && k in Rotations(a, user) ==>
              SessionOfToken(a, t) != SessionOfCall(a, k)
  {
  }

  lemma Count(a: Auth, user: string)
    requires RowsOk(a) && RotationsOk(a) && OnePerLogin(a)
    ensures |LiveTokens(a, user)| + |Rotations(a, user)| <= |LoginsOf(a, user)|
  {
    hide *;
    DifferentLogins(a, user);
    var live := set t | t in LiveTokens(a, user) :: SessionOfToken(a, t);
    var rotating := set k | k in Rotations(a, user) :: SessionOfCall(a, k);
    ImageSize(LiveTokens(a, user), t => SessionOfToken(a, t), live);
    ImageSize(Rotations(a, user), k => SessionOfCall(a, k), rotating);
    assert live !! rotating;
    assert |live + rotating| == |live| + |rotating|;
    SubsetSize(live + rotating, LoginsOf(a, user));
  }

  /** For every user, tokens that can still be spent plus rotations between the revoke and the save never
      exceed the logins. */
  lemma NeverMoreTokensThanLogins(steps: seq<AuthStep>, user: string)
    ensures var a := Run(START, steps); |LiveTokens(a, user)| + |Rotations(a, user)| <= |LoginsOf(a, user)|
  {
    hide Run, RowsOk, RotationsOk, OnePerLogin, MintedOk, WinsOk;
    RunKeepsInv(steps);
    Count(Run(START, steps), user);
  }

  /** The uninterrupted steps of a refresh leave the table the service method leaves, in every outcome; a
      replacement the table already has is refused by the last step. */
  lemma RefreshIsItsSteps(a: Auth, k: nat, presented: Token, now: nat, ttl: nat)
    requires k !in a.calls
    ensures StepSaveRotation(StepMint(StepCas(StepFind(a, k, presented, now), k), k), k, now + ttl).table
         == AfterRefresh(a.table, presented, Token(a.issued, presented.user), now, ttl)
  {
    if Usable(a.table, presented, now) {
      var b := StepFind(a, k, presented, now);
      var c := StepCas(b, k);
      var d := StepMint(c, k);
      assert d.calls[k] == Minted(Token(a.issued, presented.user), a.table[presented].session);
    }
  }

  /** So do the steps of a login and of a logout: one more live token of its user, and the token, or all tokens of the
      user, revoked with every other row as it was. */
  lemma LoginAndLogoutSteps(a: Auth, k: nat, user: string, expires: nat, presented: Token)
    requires Inv(a) && k !in a.calls
    ensures var t := Token(a.issued, user);
            && t !in a.table
            && StepSaveLogin(StepBeginLogin(a, k, user), k, expires).table
               == a.table[t := Row(user, expires, false, a.issued)]
    ensures var one := Step(a, LogoutOne(presented)).table;
            && one.Keys == a.table.Keys
            && forall t :: t in a.table ==>
                 one[t] == if t == presented then a.table[t].(revoked := true) else a.table[t]
    ensures var all := Step(a, LogoutEverywhere(user));
            && all.table.Keys == a.table.Keys && LiveTokens(all, user) == {}
            && forall t :: t in a.table && t.user != user ==> all.table[t] == a.table[t]
  {
  }

  // Every rotation was found before its token's expiry

  /** A call finds a token exactly when the table has it, not revoked and not expired. */
  lemma FindsExactly(a: Auth, k: nat, presented: Token, now: nat)
    requires k !in a.calls
    ensures Step(a, Find(k, presented, now))
         == if presented in a.table && !a.table[presented].revoked && now < a.table[presented].expires
            then a.(calls := a.calls[k := Found(presented)]) else a
  {
  }

  /** Step i of the run found the token for the call, before the token's expiry. */
  ghost predicate FoundAt(steps: seq<AuthStep>, i: nat, k: nat, t: Token)
    requires i < |steps|
  {
    var a := Run(START, steps[..i]);
    && steps[i].Find? && steps[i].k == k && steps[i].presented == t
    && t in a.table && !a.table[t].revoked && steps[i].now < a.table[t].expires
  }

  ghost predicate FoundBefore(steps: seq<AuthStep>, k: nat, t: Token) {
    exists i :: 0 <= i < |steps| && FoundAt(steps, i, k, t)
  }

  lemma StillFound(front: seq<AuthStep>, s: AuthStep, k: nat, t: Token)
    requires FoundBefore(front, k, t)
    ensures FoundBefore(front + [s], k, t)
  {
    var i :| 0 <= i < |front| && FoundAt(front, i, k, t);
    assert (front + [s])[..i] == front[..i] && (front + [s])[i] == front[i];
    assert FoundAt(front + [s], i, k, t);
  }

  /** Only a find makes a call a found one. */
  lemma FoundByStep(a: Auth, s: AuthStep, k: nat)
    requires var b := Step(a, s); k in b.calls && b.calls[k].Found?
    ensures var b := Step(a, s);
            || (k in a.calls && a.calls[k] == b.calls[k])
            || (s.Find? && s.k == k && s.presented == b.calls[k].presented && s.presented in a.table
                && !a.table[s.presented].revoked && s.now < a.table[s.presented].expires)
  {
  }

  /** Under every interleaving a call that is about to spend a token found it at an earlier step, stored, not
      revoked and before its expiry. */
  lemma {:induction false} SpentBeforeExpiry(steps: seq<AuthStep>, k: nat)
    requires var a := Run(START, steps); k in a.calls && a.calls[k].Found?
    ensures FoundBefore(steps, k, Run(START, steps).calls[k].presented)
  {
    hide Step, FoundAt;
    if steps != [] {
      var n := |steps| - 1;
      var front, s := steps[..n], steps[n];
      assert steps == front + [s];
      var a := Run(START, front);
      var t := Run(START, steps).calls[k].presented;
      FoundByStep(a, s, k);
      if k in a.calls && a.calls[k] == Run(START, steps).calls[k] {
        SpentBeforeExpiry(front, k);
        StillFound(front, s, k, t);
      } else {
        FoundNow(steps, k, t);
      }
    }
  }

  lemma FoundNow(steps: seq<AuthStep>, k: nat, t: Token)
    requires |steps| > 0
    requires var n := |steps| - 1;
             var a := Run(START, steps[..n]);
             && steps[n].Find? && steps[n].k == k && steps[n].presented == t
             && t in a.table && !a.table[t].revoked && steps[n].now < a.table[t].expires
    ensures FoundBefore(steps, k, t)
  {
    assert FoundAt(steps, |steps| - 1, k, t);
  }

  /** So a token is spent for a new one only if it was found before its expiry: a revoke that counts a row, other
      than by a logout, belongs to such a call. */
  lemma WinsWereFound(steps: seq<AuthStep>, s: AuthStep, t: Token)
    requires Run(START, steps + [s]).wins[t] > Run(START, steps).wins[t] && !s.LogoutOne?
    ensures s.Cas? && FoundBefore(steps, s.k, t)
  {
    var a := Run(START, steps);
    assert (steps + [s])[..|steps|] == steps;
    WinByCas(a, s, t);
    SpentBeforeExpiry(steps, s.k);
    hide Run, FoundBefore;
  }

  lemma WinByCas(a: Auth, s: AuthStep, t: Token)
    requires Step(a, s).wins[t] > a.wins[t] && !s.LogoutOne?
    ensures s.Cas? && s.k in a.calls && a.calls[s.k] == Found(t)
  {
  }
}
