/** Refresh-token rotation (app/services/auth_service.py, app/services/token_service.py).
    Every call is one transaction. Token ids come from a counter that stands for
    uuid4; a presented JWT is what `_decode_refresh` makes of it. */
module RefreshTokens {
  import opened Wrappers

  datatype RefreshToken = RefreshToken(userId: nat, expiresAt: int, revokedAt: Option<int>)

  datatype Presented = Undecodable | Claims(subject: nat, jti: nat)

  datatype State = State(tokens: map<nat, RefreshToken>, now: int, nextJti: nat)

  /** What a call is given: the authenticated user at login, the presented token,
      and whether the user named in it still exists and is active. */
  datatype Op =
    | Login(user: Option<nat>)
    | Refresh(presented: Presented, userIsActive: bool)
    | Logout(presented: Presented)
    | Tick(elapsed: nat)

  datatype Outcome = Issued(jti: nat) | Revoked | Denied | Ticked

  /** `get_active` finds it: known, not revoked, not yet expired. */
  predicate Active(state: State, jti: nat) {
    jti in state.tokens && state.tokens[jti].revokedAt.None? && state.tokens[jti].expiresAt > state.now
  }

  predicate Redeemable(state: State, presented: Presented, userIsActive: bool) {
    && presented.Claims? && Active(state, presented.jti)
    && state.tokens[presented.jti].userId == presented.subject && userIsActive
  }

  function Persisted(state: State, userId: nat, lifetime: int): State {
    state.(tokens := state.tokens[state.nextJti := RefreshToken(userId, state.now + lifetime, None)],
           nextJti := state.nextJti + 1)
  }

  function WithRevoked(state: State, jti: nat): State
    requires jti in state.tokens
  {
    state.(tokens := state.tokens[jti := state.tokens[jti].(revokedAt := Some(state.now))])
  }

  function Step(state: State, op: Op, lifetime: int): (r: (State, Outcome)) {
    match op
    case Login(user) =>
      if user.None? then (state, Denied) else (Persisted(state, user.value, lifetime), Issued(state.nextJti))
    case Refresh(presented, userIsActive) =>
      if !Redeemable(state, presented, userIsActive) then (state, Denied)
      else (Persisted(WithRevoked(state, presented.jti), presented.subject, lifetime), Issued(state.nextJti))
    case Logout(presented) =>
      if presented.Undecodable? || !Active(state, presented.jti) then (state, Denied)
      else (WithRevoked(state, presented.jti), Revoked)
    case Tick(elapsed) => (state.(now := state.now + elapsed), Ticked)
  }

  class AuthService {
    const lifetime: int
    var tokens: map<nat, RefreshToken>
    var now: int
    var nextJti: nat

    ghost function Contents(): State
      reads this
    {
      State(tokens, now, nextJti)
    }

    constructor (lifetime: int, now: int)
      ensures Contents() == State(map[], now, 0) && this.lifetime == lifetime
    {
      this.lifetime, this.now, tokens, nextJti := lifetime, now, map[], 0;
    }

    /** `_issue_tokens`: records the new refresh token and hands out its id. */
    method IssueTokens(userId: nat) returns (jti: nat)
      modifies this
      ensures Contents() == Persisted(old(Contents()), userId, lifetime) && jti == old(nextJti)
    {
      jti := nextJti;
      nextJti := nextJti + 1;
      tokens := tokens[jti := RefreshToken(userId, now + lifetime, None)];
    }

    method GetActive(jti: nat) returns (token: Option<RefreshToken>)
      ensures token.Some? <==> Active(Contents(), jti)
      ensures token.Some? ==> token.value == tokens[jti]
    {
      if jti !in tokens || tokens[jti].revokedAt.Some? {
        return None;
      }
      if tokens[jti].expiresAt <= now {
        return None;
      }
      return Some(tokens[jti]);
    }

    method Revoke(jti: nat)
      requires jti in tokens
      modifies this
      ensures Contents() == WithRevoked(old(Contents()), jti)
    {
      tokens := tokens[jti := tokens[jti].(revokedAt := Some(now))];
    }

    method Login(user: Option<nat>) returns (outcome: Outcome)
      modifies this
      ensures (Contents(), outcome) == Step(old(Contents()), Op.Login(user), lifetime)
    {
      if user.None? {
        return Denied;
      }
      var jti := IssueTokens(user.value);
      return Issued(jti);
    }

    method Refresh(presented: Presented, userIsActive: bool) returns (outcome: Outcome)
      modifies this
      ensures (Contents(), outcome) == Step(old(Contents()), Op.Refresh(presented, userIsActive), lifetime)
    {
      if presented.Undecodable? {
        return Denied;
      }
      var stored := GetActive(presented.jti);
      if stored.None? || stored.value.userId != presented.subject {
        return Denied;
      }
      if !userIsActive {
        return Denied;
      }
      Revoke(presented.jti);
      var jti := IssueTokens(presented.subject);
      return Issued(jti);
    }

    method Logout(presented: Presented) returns (outcome: Outcome)
      modifies this
      ensures (Contents(), outcome) == Step(old(Contents()), Op.Logout(presented), lifetime)
    {
      if presented.Undecodable? {
        return Denied;
      }
      var stored := GetActive(presented.jti);
      if stored.None? {
        return Denied;
      }
      Revoke(presented.jti);
      return Revoked;
    }
  }

  // ----- Families -----

  /** The state together with its history. Every login starts a family: `home` maps
      each token to its family; `newest` and `owner` give each family's latest token
      and the user who logged in. */
  datatype World = World(
    state: State, home: map<nat, nat>, newest: seq<nat>, owner: seq<nat>, redeemed: seq<nat>, logouts: nat)

  function Observe(world: World, op: Op, lifetime: int): World {
    var (state, outcome) := Step(world.state, op, lifetime);
    match (op, outcome)
    case (Login(user), Issued(jti)) =>
      world.(state := state, home := world.home[jti := |world.newest|],
             newest := world.newest + [jti], owner := world.owner + [user.value])
    case (Refresh(presented, _), Issued(jti)) =>
      var spent := presented.jti;
      if spent in world.home && world.home[spent] < |world.newest| then
        world.(state := state, home := world.home[jti := world.home[spent]],
               newest := world.newest[world.home[spent] := jti], redeemed := world.redeemed + [spent])
      else world.(state := state)
    case (Logout(_), Revoked) => world.(state := state, logouts := world.logouts + 1)
    case _ => world.(state := state)
  }

  function Start(now: int): World { World(State(map[], now, 0), map[], [], [], [], 0) }

  /** The world after the operations. */
  function Run(world: World, ops: seq<Op>, lifetime: int): World {
    if ops == [] then world else Observe(Run(world, ops[..|ops| - 1], lifetime), ops[|ops| - 1], lifetime)
  }

  predicate Unrevoked(state: State, jti: nat) { jti in state.tokens && state.tokens[jti].revokedAt.None? }

  function UnrevokedRows(state: State): set<nat> { set jti | jti in state.tokens && state.tokens[jti].revokedAt.None? }

  /** Families partition the issued tokens, the newest of a family is its last issued,
      and a family never changes user. */
  predicate WellFormed(world: World) {
    var tokens := world.state.tokens;
    && world.home.Keys == tokens.Keys
    && (forall f :: 0 <= f < |world.newest| ==> world.newest[f] in world.home && world.home[world.newest[f]] == f)
    && (forall jti :: jti in world.home ==>
          jti < world.state.nextJti && world.home[jti] < |world.newest| && jti <= world.newest[world.home[jti]])
    && |world.owner| == |world.newest|
    && (forall jti :: jti in world.home ==> tokens[jti].userId == world.owner[world.home[jti]])
  }

  /** Only the newest token of a family can be unrevoked. */
  predicate NewestOnly(world: World) {
    forall jti :: jti in world.home && Unrevoked(world.state, jti) && world.home[jti] < |world.newest| ==>
      jti == world.newest[world.home[jti]]
  }

  /** Redeemed tokens are revoked, and none was redeemed twice. */
  predicate RedeemedOnce(world: World) {
    && (forall k :: 0 <= k < |world.redeemed| ==>
          world.redeemed[k] in world.state.tokens && !Unrevoked(world.state, world.redeemed[k]))
    && (forall j, k :: 0 <= j < k < |world.redeemed| ==> world.redeemed[j] != world.redeemed[k])
  }

  /** Unrevoked rows are logins minus logouts. */
  predicate Balanced(world: World) { |UnrevokedRows(world.state)| + world.logouts == |world.newest| }

  predicate Rotated(world: World) { NewestOnly(world) && RedeemedOnce(world) && Balanced(world) }

  lemma LoginWellFormed(world: World, user: nat, lifetime: int)
    requires WellFormed(world)
    ensures WellFormed(Observe(world, Login(Some(user)), lifetime))
  {
    assert world.state.nextJti !in world.home;
  }

  lemma PersistedRows(state: State, userId: nat, lifetime: int)
    requires state.nextJti !in state.tokens
    ensures |UnrevokedRows(Persisted(state, userId, lifetime))| == |UnrevokedRows(state)| + 1
  {
    assert UnrevokedRows(Persisted(state, userId, lifetime)) == UnrevokedRows(state) + {state.nextJti};
  }

  lemma RevokedRows(state: State, jti: nat)
    requires Unrevoked(state, jti)
    ensures |UnrevokedRows(WithRevoked(state, jti))| == |UnrevokedRows(state)| - 1
  {
    assert UnrevokedRows(WithRevoked(state, jti)) == UnrevokedRows(state) - {jti};
    assert jti in UnrevokedRows(state);
  }

  /** A login adds an unrevoked row, a logout removes one, a refresh trades one for another. */
  lemma RowsChange(state: State, op: Op, lifetime: int)
    requires state.nextJti !in state.tokens
    ensures var (after, outcome) := Step(state, op, lifetime);
      |UnrevokedRows(after)| == |UnrevokedRows(state)|
        + (if op.Login? && outcome.Issued? then 1 else 0) - (if outcome == Revoked then 1 else 0)
  {
    match op
    case Login(user) =>
      if user.Some? { PersistedRows(state, user.value, lifetime); }
    case Refresh(presented, userIsActive) =>
      if Redeemable(state, presented, userIsActive) {
        RevokedRows(state, presented.jti);
        PersistedRows(WithRevoked(state, presented.jti), presented.subject, lifetime);
      }
    case Logout(presented) =>
      if presented.Claims? && Active(state, presented.jti) { RevokedRows(state, presented.jti); }
    case Tick(elapsed) =>
      assert UnrevokedRows(state.(now := state.now + elapsed)) == UnrevokedRows(state);
  }

  lemma RefreshWellFormed(world: World, presented: Presented, lifetime: int)
    requires WellFormed(world) && Rotated(world) && Redeemable(world.state, presented, true)
    ensures WellFormed(Observe(world, Refresh(presented, true), lifetime))
  {
    assert presented.jti in world.home;
    assert world.state.nextJti !in world.home;
  }

  lemma LogoutWellFormed(world: World, presented: Presented, lifetime: int)
    requires WellFormed(world)
    ensures WellFormed(Observe(world, Logout(presented), lifetime))
  {
  }

  lemma NewestOnlyStays(world: World, op: Op, lifetime: int)
    requires WellFormed(world) && NewestOnly(world)
    ensures NewestOnly(Observe(world, op, lifetime))
  {
    assert world.state.nextJti !in world.home;
    if op.Refresh? && Redeemable(world.state, op.presented, op.userIsActive) {
      assert op.presented.jti in world.home;
      assert op.presented.jti == world.newest[world.home[op.presented.jti]];
    }
  }

  lemma RedeemedOnceStays(world: World, op: Op, lifetime: int)
    requires WellFormed(world) && RedeemedOnce(world)
    ensures RedeemedOnce(Observe(world, op, lifetime))
  {
    assert world.state.nextJti !in world.home;
  }

  lemma BalanceStays(world: World, op: Op, lifetime: int)
    requires WellFormed(world) && Balanced(world)
    ensures Balanced(Observe(world, op, lifetime))
  {
    assert world.state.nextJti !in world.home;
    RowsChange(world.state, op, lifetime);
    ObserveSteps(world, op, lifetime);
    hide UnrevokedRows, Redeemable, Active;
  }

  lemma TickWellFormed(world: World, elapsed: nat, lifetime: int)
    requires WellFormed(world)
    ensures WellFormed(Observe(world, Tick(elapsed), lifetime))
  {
  }

  lemma RefusedKeeps(world: World, op: Op, lifetime: int)
    requires Step(world.state, op, lifetime).1 == Denied
    ensures Observe(world, op, lifetime) == world
  {
  }

  /** Every step keeps the families in order. */
  lemma ObserveKeeps(world: World, op: Op, lifetime: int)
    requires WellFormed(world) && Rotated(world)
    ensures WellFormed(Observe(world, op, lifetime)) && Rotated(Observe(world, op, lifetime))
  {
    hide WellFormed, NewestOnly, RedeemedOnce, Balanced, Observe;
    NewestOnlyStays(world, op, lifetime);
    RedeemedOnceStays(world, op, lifetime);
    BalanceStays(world, op, lifetime);
    match op
    case Login(user) =>
      if user.Some? { LoginWellFormed(world, user.value, lifetime); } else { RefusedKeeps(world, op, lifetime); }
    case Logout(presented) =>
      LogoutWellFormed(world, presented, lifetime);
    case Refresh(presented, userIsActive) =>
      if Redeemable(world.state, presented, userIsActive) {
        RefreshWellFormed(world, presented, lifetime);
      } else {
        RefusedKeeps(world, op, lifetime);
      }
    case Tick(elapsed) => TickWellFormed(world, elapsed, lifetime);
  }

  lemma {:induction false} RunKeeps(world: World, ops: seq<Op>, lifetime: int)
    requires WellFormed(world) && Rotated(world)
    ensures WellFormed(Run(world, ops, lifetime)) && Rotated(Run(world, ops, lifetime))
    decreases |ops|
  {
    hide WellFormed, Rotated, Observe;
    if ops != [] {
      RunKeeps(world, ops[..|ops| - 1], lifetime);
      ObserveKeeps(Run(world, ops[..|ops| - 1], lifetime), ops[|ops| - 1], lifetime);
    }
  }

  /** Every run of logins, refreshes, logouts and clock ticks from an empty table
      keeps the families in order. */
  lemma {:induction false} FamiliesStayRotated(now: int, ops: seq<Op>, lifetime: int)
    ensures WellFormed(Run(Start(now), ops, lifetime)) && Rotated(Run(Start(now), ops, lifetime))
  {
    StartKeeps(now);
    RunKeeps(Start(now), ops, lifetime);
  }

  lemma StartKeeps(now: int)
    ensures WellFormed(Start(now)) && Rotated(Start(now))
  {
    assert UnrevokedRows(Start(now).state) == {};
  }

  // ----- What calls can and cannot do -----

  /** Reads off `Step` which calls succeed, and that the others change nothing. */
  lemma FailedCallsChangeNothing(state: State, op: Op, lifetime: int)
    ensures Step(state, op, lifetime).1 == Denied ==> Step(state, op, lifetime).0 == state
    ensures op.Refresh? ==>
      (Step(state, op, lifetime).1.Issued? <==> Redeemable(state, op.presented, op.userIsActive))
    ensures op.Logout? ==>
      (Step(state, op, lifetime).1 == Revoked <==> op.presented.Claims? && Active(state, op.presented.jti))
  {
  }

  lemma StepNeverReactivates(state: State, op: Op, lifetime: int, jti: nat)
    requires jti in state.tokens && jti < state.nextJti
    ensures var after := Step(state, op, lifetime).0;
      && jti in after.tokens
      && (Active(after, jti) ==> Active(state, jti))
      && (Unrevoked(after, jti) ==> Unrevoked(state, jti))
  {
  }

  lemma ObserveSteps(world: World, op: Op, lifetime: int)
    ensures Observe(world, op, lifetime).state == Step(world.state, op, lifetime).0
  {
  }

  /** A known token that is revoked or expired never becomes active again. */
  lemma {:induction false} NeverReactivated(world: World, ops: seq<Op>, lifetime: int, jti: nat)
    requires WellFormed(world) && Rotated(world) && jti in world.state.tokens
    ensures var after := Run(world, ops, lifetime).state;
      && jti in after.tokens
      && (Active(after, jti) ==> Active(world.state, jti))
      && (Unrevoked(after, jti) ==> Unrevoked(world.state, jti))
    decreases |ops|
  {
    hide Observe, Step, Rotated, Active, Unrevoked;
    if ops != [] {
      var n := |ops| - 1;
      var before := Run(world, ops[..n], lifetime);
      NeverReactivated(world, ops[..n], lifetime, jti);
      RunKeeps(world, ops[..n], lifetime);
      assert jti in before.home;
      StepNeverReactivates(before.state, ops[n], lifetime, jti);
      ObserveSteps(before, ops[n], lifetime);
    }
  }

  /** A family whose newest token was revoked by a logout never grows again. */
  lemma {:induction false} LoggedOutFamilyIsFinished(world: World, ops: seq<Op>, lifetime: int, f: nat)
    requires WellFormed(world) && Rotated(world)
    requires f < |world.newest| && !Unrevoked(world.state, world.newest[f])
    ensures var after := Run(world, ops, lifetime);
      f < |after.newest| && after.newest[f] == world.newest[f]
    decreases |ops|
  {
    if ops != [] {
      var n := |ops| - 1;
      var before := Run(world, ops[..n], lifetime);
      LoggedOutFamilyIsFinished(world, ops[..n], lifetime, f);
      RunKeeps(world, ops[..n], lifetime);
      NeverReactivated(world, ops[..n], lifetime, world.newest[f]);
      NewestStays(before, ops[n], lifetime, f);
    }
  }

  lemma NewestStays(world: World, op: Op, lifetime: int, f: nat)
    requires WellFormed(world) && Rotated(world)
    requires f < |world.newest| && !Unrevoked(world.state, world.newest[f])
    ensures f < |Observe(world, op, lifetime).newest| && Observe(world, op, lifetime).newest[f] == world.newest[f]
  {
    if op.Refresh? && Redeemable(world.state, op.presented, op.userIsActive) {
      assert op.presented.jti in world.home && Unrevoked(world.state, op.presented.jti);
    }
  }

  // ----- When a token can be exchanged -----

  /** The table and clock after the operations, without any record of families. */
  function StateAfter(state: State, ops: seq<Op>, lifetime: int): State {
    if ops == [] then state
    else Step(StateAfter(state, ops[..|ops| - 1], lifetime), ops[|ops| - 1], lifetime).0
  }

  /** How far the clock moved. */
  function Elapsed(ops: seq<Op>): nat {
    if ops == [] then 0
    else Elapsed(ops[..|ops| - 1]) + (if ops[|ops| - 1].Tick? then ops[|ops| - 1].elapsed else 0)
  }

  /** What operation `k` answers. */
  function OutcomeAt(state: State, ops: seq<Op>, lifetime: int, k: nat): Outcome
    requires k < |ops|
  {
    Step(StateAfter(state, ops[..k], lifetime), ops[k], lifetime).1
  }

  /** The operation presents the token and succeeds. */
  predicate Spends(op: Op, outcome: Outcome, jti: nat) {
    match op
    case Refresh(Claims(_, presented), _) => presented == jti && outcome.Issued?
    case Logout(Claims(_, presented)) => presented == jti && outcome == Revoked
    case _ => false
  }

  predicate SpentAt(state: State, ops: seq<Op>, lifetime: int, jti: nat, k: nat)
    requires k < |ops|
  {
    Spends(ops[k], OutcomeAt(state, ops, lifetime, k), jti)
  }

  predicate Spent(state: State, ops: seq<Op>, lifetime: int, jti: nat) {
    exists k :: 0 <= k < |ops| && SpentAt(state, ops, lifetime, jti, k)
  }

  predicate IdsBelow(state: State) { forall jti :: jti in state.tokens ==> jti < state.nextJti }

  lemma {:induction false} IdsStayBelow(state: State, ops: seq<Op>, lifetime: int)
    requires IdsBelow(state)
    ensures IdsBelow(StateAfter(state, ops, lifetime))
    decreases |ops|
  {
    if ops != [] {
      IdsStayBelow(state, ops[..|ops| - 1], lifetime);
    }
  }

  lemma SpentMore(state: State, ops: seq<Op>, lifetime: int, jti: nat)
    requires ops != []
    ensures Spent(state, ops, lifetime, jti) <==>
      Spent(state, ops[..|ops| - 1], lifetime, jti) || SpentAt(state, ops, lifetime, jti, |ops| - 1)
  {
    hide Step, StateAfter;
    var before := ops[..|ops| - 1];
    forall k | 0 <= k < |before|
      ensures SpentAt(state, ops, lifetime, jti, k) == SpentAt(state, before, lifetime, jti, k)
    {
      assert before[..k] == ops[..k];
    }
  }

  /** A token's row keeps its user and expiry, and is revoked exactly by being spent. */
  lemma {:induction false} RowAfter(state: State, ops: seq<Op>, lifetime: int, jti: nat)
    requires IdsBelow(state) && jti in state.tokens && state.tokens[jti].revokedAt.None?
    ensures var after := StateAfter(state, ops, lifetime);
      && jti in after.tokens && after.now == state.now + Elapsed(ops)
      && after.tokens[jti].userId == state.tokens[jti].userId
      && after.tokens[jti].expiresAt == state.tokens[jti].expiresAt
      && (after.tokens[jti].revokedAt.None? <==> !Spent(state, ops, lifetime, jti))
    decreases |ops|
  {
    if ops != [] {
      var n := |ops| - 1;
      RowAfter(state, ops[..n], lifetime, jti);
      IdsStayBelow(state, ops[..n], lifetime);
      SpentMore(state, ops, lifetime, jti);
      hide Spent, StateAfter;
      RowStep(StateAfter(state, ops[..n], lifetime), ops[n], lifetime, jti);
      StateStep(state, ops, lifetime);
    }
  }

  lemma StateStep(state: State, ops: seq<Op>, lifetime: int)
    requires ops != []
    ensures StateAfter(state, ops, lifetime)
         == Step(StateAfter(state, ops[..|ops| - 1], lifetime), ops[|ops| - 1], lifetime).0
  {
  }

  lemma RowStep(state: State, op: Op, lifetime: int, jti: nat)
    requires IdsBelow(state) && jti in state.tokens
    ensures var (after, outcome) := Step(state, op, lifetime);
      && jti in after.tokens && after.now == state.now + (if op.Tick? then op.elapsed else 0)
      && after.tokens[jti].userId == state.tokens[jti].userId
      && after.tokens[jti].expiresAt == state.tokens[jti].expiresAt
      && (after.tokens[jti].revokedAt.None? <==> state.tokens[jti].revokedAt.None? && !Spends(op, outcome, jti))
  {
  }

  /** Whom an operation issues a token to. */
  function IssuedTo(op: Op): nat
    requires (op.Login? && op.user.Some?) || (op.Refresh? && op.presented.Claims?)
  {
    if op.Login? then op.user.value else op.presented.subject
  }

  lemma FreshRow(state: State, op: Op, lifetime: int)
    requires IdsBelow(state) && Step(state, op, lifetime).1.Issued?
    ensures (op.Login? && op.user.Some?) || (op.Refresh? && op.presented.Claims?)
    ensures var (after, outcome) := Step(state, op, lifetime);
      && outcome.jti !in state.tokens && outcome.jti in after.tokens && IdsBelow(after) && after.now == state.now
      && after.tokens[outcome.jti] == RefreshToken(IssuedTo(op), state.now + lifetime, None)
  {
  }

  /** In every run: a token issued by a login or refresh can later be exchanged if and
      only if less time than its lifetime has passed, no successful refresh or logout
      has presented it, and the presented subject is the user it was issued to and
      still active. A logout needs only the first two. */
  lemma ExchangeExact(
      now: int, before: seq<Op>, issue: Op, later: seq<Op>, lifetime: int, subject: nat, userIsActive: bool)
    requires OutcomeAt(State(map[], now, 0), before + [issue], lifetime, |before|).Issued?
    ensures (issue.Login? && issue.user.Some?) || (issue.Refresh? && issue.presented.Claims?)
    ensures var issued := StateAfter(State(map[], now, 0), before + [issue], lifetime);
      var jti := OutcomeAt(State(map[], now, 0), before + [issue], lifetime, |before|).jti;
      var state := StateAfter(issued, later, lifetime);
      var usable := Elapsed(later) < lifetime
                    && forall k :: 0 <= k < |later| ==> !SpentAt(issued, later, lifetime, jti, k);
      && (Step(state, Refresh(Claims(subject, jti), userIsActive), lifetime).1.Issued?
          <==> usable && subject == IssuedTo(issue) && userIsActive)
      && (Step(state, Logout(Claims(subject, jti)), lifetime).1 == Revoked <==> usable)
  {
    var start, ops := State(map[], now, 0), before + [issue];
    assert ops[..|before|] == before && ops[|ops| - 1] == issue;
    IdsStayBelow(start, before, lifetime);
    StateStep(start, ops, lifetime);
    FreshRow(StateAfter(start, before, lifetime), issue, lifetime);
    var issued := StateAfter(start, ops, lifetime);
    var jti := OutcomeAt(start, ops, lifetime, |before|).jti;
    RowAfter(issued, later, lifetime, jti);
    hide StateAfter, OutcomeAt, SpentAt;
  }

  /** A token that no operation issued is never exchanged. */
  lemma {:induction false} UnissuedIsRefused(now: int, ops: seq<Op>, lifetime: int, jti: nat)
    requires forall k :: 0 <= k < |ops| ==> OutcomeAt(State(map[], now, 0), ops, lifetime, k) != Issued(jti)
    ensures jti !in StateAfter(State(map[], now, 0), ops, lifetime).tokens
    ensures forall subject, userIsActive ::
      Step(StateAfter(State(map[], now, 0), ops, lifetime), Refresh(Claims(subject, jti), userIsActive), lifetime).1
      == Denied
    decreases |ops|
  {
    if ops != [] {
      var start, n := State(map[], now, 0), |ops| - 1;
      forall k | 0 <= k < n ensures OutcomeAt(start, ops[..n], lifetime, k) != Issued(jti) {
        assert ops[..n][..k] == ops[..k];
        assert OutcomeAt(start, ops[..n], lifetime, k) == OutcomeAt(start, ops, lifetime, k);
      }
      UnissuedIsRefused(now, ops[..n], lifetime, jti);
      assert OutcomeAt(start, ops, lifetime, n) != Issued(jti);
    }
  }
}
