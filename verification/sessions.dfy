/**
 Sliding sessions: internal/auth/service.go and the session and user rows of internal/auth/store.go.

 Time is an integer; a call carries each of its clock readings. Every service call is one step, but
 the two statements of a user deletion are separate steps, and so are the read of a user row by
 SetDisabled, SetRole, SetPassword or an external login and the write that puts the whole row back,
 and the reads of a resolve and the write that slides the expiry. `issued` and `created` record the
 tokens and user ids ever handed out, which are never handed out again.
 */
module Sessions {
  import opened Options

  datatype User = User(role: string, disabled: bool)
  datatype Session = Session(user: string, expires: int)

  /** A row that has been read and changed and will be written back. */
  datatype Edit = Edit(user: string, row: User, done: bool)
  datatype Change = ToDisabled(disabled: bool) | ToRole(role: string) | ToPassword

  /** A resolve that has accepted its session and will write this expiry. */
  datatype Touch = Touch(token: string, expires: int, done: bool)

  datatype State = State(ttl: int, users: map<string, User>, sessions: map<string, Session>, edits: seq<Edit>,
                         touches: seq<Touch>, issued: set<string>, created: set<string>)

  datatype Event =
    | CreateUser(user: string, role: string)
    | Login(user: string, token: string, now: int)                 // startSession
    | Resolve(token: string, read: int, until: int, touch: int)    // its reads and three clock readings
    | EndTouch(write: nat)                                         // touchSession
    | Logout(token: string)
    | BeginEdit(user: string, change: Change)                      // userByID
    | EndEdit(edit: nat)                                           // updateUser
    | DropUser(user: string)                                       // first statement of deleteUser
    | DropSessions(user: string)                                   // second statement
    | Purge(now: int)

  predicate Enabled(s: State, e: Event) {
    match e
    case CreateUser(u, _) => u !in s.created
    case Login(u, t, _) => u in s.created && t != "" && t !in s.issued
    case EndTouch(k) => k < |s.touches| && !s.touches[k].done
    case EndEdit(k) => k < |s.edits| && !s.edits[k].done
    case _ => true
  }

  function Changed(u: User, c: Change): User {
    match c
    case ToDisabled(d) => u.(disabled := d)
    case ToRole(r) => u.(role := r)
    case ToPassword => u
  }

  /** What ResolveSession answers; None stands for ErrNotFound. */
  function Answer(s: State, e: Event): Option<string>
    requires e.Resolve?
  {
    if e.token !in s.sessions then None
    else
      var sess := s.sessions[e.token];
      if e.read > sess.expires || sess.user !in s.users || s.users[sess.user].disabled then None
      else Some(sess.user)
  }

  /** A resolve deletes a session that has expired or whose user is disabled. */
  function AfterResolve(s: State, e: Event): map<string, Session>
    requires e.Resolve?
  {
    if e.token !in s.sessions then s.sessions
    else
      var sess := s.sessions[e.token];
      if e.read > sess.expires then s.sessions - {e.token}
      else if sess.user !in s.users then s.sessions
      else if s.users[sess.user].disabled then s.sessions - {e.token}
      else s.sessions
  }

  /** An accepted resolve past the halfway point goes on to slide the expiry. */
  predicate Slides(s: State, e: Event)
    requires e.Resolve?
  {
    Answer(s, e).Some? && s.sessions[e.token].expires - e.until < s.ttl / 2
  }

  function Step(s: State, e: Event): State {
    match e
    case CreateUser(u, role) => s.(users := s.users[u := User(role, false)], created := s.created + {u})
    case Login(u, t, now) =>
      s.(sessions := s.sessions[t := Session(u, now + s.ttl)], issued := s.issued + {t})
    case Resolve(t, _, _, touch) =>
      s.(sessions := AfterResolve(s, e),
         touches := if Slides(s, e) then s.touches + [Touch(t, touch + s.ttl, false)] else s.touches)
    case EndTouch(k) =>
      if !Enabled(s, e) then s
      else
        var Touch(t, x, _) := s.touches[k];
        s.(sessions := if t in s.sessions then s.sessions[t := s.sessions[t].(expires := x)] else s.sessions,
           touches := s.touches[k := Touch(t, x, true)])
    case Logout(t) => s.(sessions := s.sessions - {t})
    case BeginEdit(u, c) =>
      if u in s.users then s.(edits := s.edits + [Edit(u, Changed(s.users[u], c), false)]) else s
    case EndEdit(k) =>
      if !Enabled(s, e) then s
      else
        var Edit(u, row, _) := s.edits[k];
        s.(users := if u in s.users then s.users[u := row] else s.users, edits := s.edits[k := Edit(u, row, true)])
    case DropUser(u) => s.(users := s.users - {u})
    case DropSessions(u) =>
      s.(sessions := map t | t in s.sessions && s.sessions[t].user != u :: s.sessions[t])
    case Purge(now) =>
      s.(sessions := map t | t in s.sessions && s.sessions[t].expires >= now :: s.sessions[t])
  }

  // ---------------------------------------------------------------- histories

  /** The clock readings of an event in order, none before `clock`. */
  predicate OnTime(e: Event, clock: int) {
    match e
    case Login(_, _, now) => clock <= now
    case Resolve(_, r, u, t) => clock <= r <= u <= t
    case Purge(now) => clock <= now
    case _ => true
  }

  function Clock(e: Event, clock: int): int {
    match e
    case Login(_, _, now) => now
    case Resolve(_, _, _, t) => t
    case Purge(now) => now
    case _ => clock
  }

  /** A history of requests the service can live through from s, starting at `clock`. */
  predicate Legal(s: State, h: seq<Event>, clock: int)
    decreases h
  {
    h == [] || (Enabled(s, h[0]) && OnTime(h[0], clock) && Legal(Step(s, h[0]), h[1..], Clock(h[0], clock)))
  }

  predicate Resolves(e: Event, token: string) { e.Resolve? && e.token == token }

  predicate AllAccepted(s: State, h: seq<Event>, token: string)
    decreases h
  {
    h == [] || ((Resolves(h[0], token) ==> Answer(s, h[0]).Some?) && AllAccepted(Step(s, h[0]), h[1..], token))
  }

  predicate NoneAccepted(s: State, h: seq<Event>, token: string)
    decreases h
  {
    h == [] || ((Resolves(h[0], token) ==> Answer(s, h[0]).None?) && NoneAccepted(Step(s, h[0]), h[1..], token))
  }

  predicate Good(s: State, clock: int) {
    && s.ttl > 0 && s.users.Keys <= s.created && s.sessions.Keys <= s.issued && "" !in s.issued
    && (forall k :: 0 <= k < |s.touches| ==> s.touches[k].expires <= clock + s.ttl && s.touches[k].token in s.issued)
    && forall t :: t in s.sessions ==> s.sessions[t].expires <= clock + s.ttl && s.sessions[t].user in s.created
  }

  lemma StepKeepsGood(s: State, e: Event, clock: int)
    requires Good(s, clock) && Enabled(s, e) && OnTime(e, clock)
    ensures Good(Step(s, e), Clock(e, clock))
  {
  }

  /** A resolve with nothing between its reads and its write. */
  function Resolved(s: State, e: Event): State
    requires e.Resolve?
  {
    if Slides(s, e) then Step(Step(s, e), EndTouch(|s.touches|)) else Step(s, e)
  }

  /** Right after an accepted resolve at least floor(TTL/2) and at most TTL remains. */
  lemma RemainingAfterResolve(s: State, e: Event, clock: int)
    requires Good(s, clock) && OnTime(e, clock) && e.Resolve? && Answer(s, e).Some?
    ensures e.token in Resolved(s, e).sessions
    ensures var x := Resolved(s, e).sessions[e.token].expires; x - e.until >= s.ttl / 2 && x - e.touch <= s.ttl
  {
  }

  // ---------------------------------------------------------------- a used session lives

  /** Consecutive resolves of the token start at most g after the expiry was last examined. */
  predicate Spaced(h: seq<Event>, token: string, last: int, g: int) {
    h == [] ||
    if Resolves(h[0], token) then h[0].read - last <= g && Spaced(h[1..], token, h[0].until, g)
    else Spaced(h[1..], token, last, g)
  }

  /** No row of the user that is about to be written back is disabled (or, the other way, enabled). */
  predicate EditsCarry(s: State, user: string, disabled: bool) {
    forall k :: 0 <= k < |s.edits| && !s.edits[k].done && s.edits[k].user == user ==>
      s.edits[k].row.disabled == disabled
  }

  /** Nobody ends the session or its user. */
  predicate LeftAlone(h: seq<Event>, token: string, user: string) {
    forall i :: 0 <= i < |h| ==>
      && h[i] != Logout(token) && h[i] != BeginEdit(user, ToDisabled(true))
      && h[i] != DropUser(user) && h[i] != DropSessions(user)
  }

  /** Write k of the table is still to slide the token's expiry. */
  predicate Sliding(s: State, token: string, k: nat) {
    k < |s.touches| && !s.touches[k].done && s.touches[k].token == token
  }

  predicate AnySliding(s: State, token: string) {
    exists k | 0 <= k < |s.touches| :: Sliding(s, token, k)
  }

  /** A resolve of the token has written its expiry before the next resolve of it or a purge comes. */
  predicate Apart(s: State, h: seq<Event>, token: string)
    decreases h
  {
    h == [] ||
    ((Resolves(h[0], token) || h[0].Purge? ==> !AnySliding(s, token)) && Apart(Step(s, h[0]), h[1..], token))
  }

  /** The expiries that can stand once all resolves of the token in flight have written theirs. */
  predicate LastWord(s: State, token: string, x: int) {
    || (!AnySliding(s, token) && token in s.sessions && s.sessions[token].expires == x)
    || exists k | 0 <= k < |s.touches| :: Sliding(s, token, k) && s.touches[k].expires == x
  }

  /** The session is there, its user may use it, and nobody in flight is going to disable the user. */
  predicate Usable(s: State, token: string, user: string) {
    && token in s.sessions && s.sessions[token].user == user
    && user in s.users && !s.users[user].disabled && EditsCarry(s, user, false)
  }

  /** Whatever write comes last, half a lifetime remains from the last examination. */
  ghost predicate Lasting(s: State, token: string, last: int) {
    forall x :: LastWord(s, token, x) ==> x - last >= s.ttl / 2
  }

  lemma {:induction false} TooLateToResolve(s: State, h: seq<Event>, token: string, last: int, g: int, clock: int)
    requires Legal(s, h, clock) && Spaced(h, token, last, g) && clock > last + g
    ensures AllAccepted(s, h, token)
    decreases h
  {
    if h == [] {
    } else {
      TooLateToResolve(Step(s, h[0]), h[1..], token, last, g, Clock(h[0], clock));
    }
  }

  /** An event that does not end this session or its user, nor purges the session, keeps it usable. */
  lemma StaysUsable(s: State, e: Event, token: string, user: string, clock: int)
    requires Good(s, clock) && Usable(s, token, user) && Enabled(s, e) && LeftAlone([e], token, user)
    requires Resolves(e, token) ==> e.read <= s.sessions[token].expires
    requires e.Purge? ==> e.now <= s.sessions[token].expires
    ensures Usable(Step(s, e), token, user)
  {
    assert [e][0] == e;
  }

  lemma WritesKept(s: State, e: Event, token: string, k: nat)
    requires Sliding(s, token, k) && e != EndTouch(k)
    ensures Sliding(Step(s, e), token, k) && Step(s, e).touches[k] == s.touches[k]
  {
  }

  /** Nobody but a resolve of the token changes the last word on its expiry. */
  lemma StaysLasting(s: State, e: Event, token: string, last: int)
    requires Lasting(s, token, last) && Enabled(s, e) && !Resolves(e, token) && token in s.sessions
    requires !(e.Login? && e.token == token)
    ensures Lasting(Step(s, e), token, last)
  {
    var s' := Step(s, e);
    forall x | LastWord(s', token, x) ensures x - last >= s.ttl / 2 {
      if k :| 0 <= k < |s'.touches| && Sliding(s', token, k) && s'.touches[k].expires == x {
        assert Sliding(s, token, k) && LastWord(s, token, x);
      } else if e.EndTouch? && s.touches[e.write].token == token {
        assert Sliding(s, token, e.write) && LastWord(s, token, x);
      } else if AnySliding(s, token) {
        var k :| 0 <= k < |s.touches| && Sliding(s, token, k);
        WritesKept(s, e, token, k);
      } else {
        assert LastWord(s, token, x);
      }
    }
  }

  /** An accepted resolve leaves half a lifetime, at once or with its write. */
  lemma ResolveLasting(s: State, e: Event, token: string)
    requires s.ttl > 0 && Resolves(e, token) && e.until <= e.touch && Answer(s, e).Some? && !AnySliding(s, token)
    ensures Lasting(Step(s, e), token, e.until)
  {
    var s' := Step(s, e);
    forall x | LastWord(s', token, x) ensures x - e.until >= s.ttl / 2 {
      forall k | 0 <= k < |s.touches| ensures !Sliding(s', token, k) { assert !Sliding(s, token, k); }
      if Slides(s, e) { assert Sliding(s', token, |s.touches|); }
    }
  }

  lemma {:induction false} UsedSessionLives(s: State, h: seq<Event>, token: string, user: string, last: int, clock: int)
    requires Good(s, clock) && Legal(s, h, clock) && last <= clock
    requires Usable(s, token, user) && Lasting(s, token, last)
    requires Apart(s, h, token) && Spaced(h, token, last, s.ttl / 2) && LeftAlone(h, token, user)
    ensures AllAccepted(s, h, token)
    decreases h
  {
    if h == [] {
    } else {
      var e, rest := h[0], h[1..];
      var s' := Step(s, e);
      StepKeepsGood(s, e, clock);
      assert LeftAlone(rest, token, user) by {
        forall i | 0 <= i < |rest| ensures rest[i] == h[i+1] {}
      }
      if !AnySliding(s, token) { assert LastWord(s, token, s.sessions[token].expires); }
      if e.Purge? && e.now > s.sessions[token].expires {
        TooLateToResolve(s', rest, token, last, s.ttl / 2, e.now);
      } else {
        StaysUsable(s, e, token, user, clock);
        if Resolves(e, token) { ResolveLasting(s, e, token); } else { StaysLasting(s, e, token, last); }
        UsedSessionLives(s', rest, token, user, if Resolves(e, token) then e.until else last, Clock(e, clock));
      }
    }
  }

  /** A session whose resolves follow its login and each other by at most floor(TTL/2), each written
      before the next resolve or a purge, is never rejected, whatever else happens, unless it is revoked
      or its user is disabled or deleted, or a disabled row of the user is about to be written back. */
  lemma ActiveSessionNeverExpires(s: State, user: string, token: string, now: int, h: seq<Event>, clock: int)
    requires Good(s, clock) && user in s.users && !s.users[user].disabled && EditsCarry(s, user, false)
    requires Legal(s, [Login(user, token, now)] + h, clock)
    requires Apart(Step(s, Login(user, token, now)), h, token)
    requires Spaced(h, token, now, s.ttl / 2) && LeftAlone(h, token, user)
    ensures AllAccepted(Step(s, Login(user, token, now)), h, token)
  {
    var e := Login(user, token, now);
    assert ([e] + h)[1..] == h;
    StepKeepsGood(s, e, clock);
    UsedSessionLives(Step(s, e), h, token, user, now, now);
  }

  // ---------------------------------------------------------------- writes in flight

  /** Some history with the resolves spaced and apart rejects the session. */
  ghost predicate CanBeLost(s: State, token: string, user: string, last: int, clock: int) {
    exists h :: && Legal(s, h, clock) && Apart(s, h, token) && Spaced(h, token, last, s.ttl / 2)
                && LeftAlone(h, token, user) && !AllAccepted(s, h, token)
  }

  lemma LostBefore(s: State, e: Event, token: string, user: string, last: int, clock: int)
    requires Enabled(s, e) && e.EndTouch? && CanBeLost(Step(s, e), token, user, last, clock)
    ensures CanBeLost(s, token, user, last, clock)
  {
    var s' := Step(s, e);
    var h :| && Legal(s', h, clock) && Apart(s', h, token) && Spaced(h, token, last, s.ttl / 2)
             && LeftAlone(h, token, user) && !AllAccepted(s', h, token);
    var h' := [e] + h;
    assert h'[1..] == h;
    assert LeftAlone(h', token, user) by {
      forall i | 1 <= i < |h'| ensures h'[i] == h[i-1] {}
    }
  }

  lemma LostNow(s: State, token: string, user: string, last: int, clock: int)
    requires token in s.sessions && !AnySliding(s, token)
    requires clock <= last + s.ttl / 2 && s.sessions[token].expires < last + s.ttl / 2
    ensures CanBeLost(s, token, user, last, clock)
  {
    var x := s.sessions[token].expires;
    var at := if clock > x then clock else x + 1;
    var e := Resolve(token, at, at, at);
    assert [e][1..] == [];
    assert Legal(s, [e], clock) && Apart(s, [e], token) && Spaced([e], token, last, s.ttl / 2);
  }

  function Unwritten(touches: seq<Touch>): nat {
    if touches == [] then 0 else (if touches[0].done then 0 else 1) + Unwritten(touches[1..])
  }

  lemma {:induction false} UnwrittenUpdate(touches: seq<Touch>, k: nat, t: Touch)
    requires k < |touches| && !touches[k].done && t.done
    ensures Unwritten(touches[k := t]) < Unwritten(touches)
  {
    if k == 0 {
      assert touches[k := t][1..] == touches[1..];
    } else {
      assert touches[k := t][1..] == touches[1..][k - 1 := t];
      UnwrittenUpdate(touches[1..], k - 1, t);
    }
  }

  /** The others write first, then k, and then the resolve comes too late. */
  lemma {:induction false} LostByWrite(s: State, k: nat, token: string, user: string, last: int, clock: int)
    requires token in s.sessions && Sliding(s, token, k)
    requires clock <= last + s.ttl / 2 && s.touches[k].expires < last + s.ttl / 2
    ensures CanBeLost(s, token, user, last, clock)
    decreases Unwritten(s.touches)
  {
    if i :| 0 <= i < |s.touches| && Sliding(s, token, i) && i != k {
      var s' := Step(s, EndTouch(i));
      UnwrittenUpdate(s.touches, i, s'.touches[i]);
      LostByWrite(s', k, token, user, last, clock);
      LostBefore(s, EndTouch(i), token, user, last, clock);
    } else {
      var s' := Step(s, EndTouch(k));
      forall i | 0 <= i < |s'.touches| ensures !Sliding(s', token, i) { assert i != k ==> !Sliding(s, token, i); }
      LostNow(s', token, user, last, clock);
      LostBefore(s, EndTouch(k), token, user, last, clock);
    }
  }

  /** A session in use, last examined at `last`, can be lost exactly when the last write in flight may
      be one whose expiry, fixed when its clock was read, comes before half a lifetime from then. */
  lemma ActiveSessionLostExactly(s: State, token: string, user: string, last: int, clock: int)
    requires Good(s, clock) && Usable(s, token, user) && last <= clock <= last + s.ttl / 2
    ensures CanBeLost(s, token, user, last, clock) <==> exists x :: LastWord(s, token, x) && x < last + s.ttl / 2
  {
    if x :| LastWord(s, token, x) && x < last + s.ttl / 2 {
      if k :| 0 <= k < |s.touches| && Sliding(s, token, k) && s.touches[k].expires == x {
        LostByWrite(s, k, token, user, last, clock);
      } else {
        LostNow(s, token, user, last, clock);
      }
    } else {
      assert Lasting(s, token, last);
      forall h | Legal(s, h, clock) && Apart(s, h, token) && Spaced(h, token, last, s.ttl / 2)
                 && LeftAlone(h, token, user)
        ensures AllAccepted(s, h, token)
      {
        UsedSessionLives(s, h, token, user, last, clock);
      }
    }
  }

  /** Being apart is needed: a resolve whose write is late loses the session to the next one. */
  lemma OverlapLosesSession(ttl: int, user: string, token: string)
    requires ttl >= 4 && token != ""
    ensures var s, g := LoggedIn(ttl, user, token), ttl / 2;
      var h := [Resolve(token, g, g, g), Resolve(token, 2 * g, 2 * g, 2 * g), Resolve(token, 3 * g, 3 * g, 3 * g)];
      && Legal(s, h, 0) && Spaced(h, token, 0, g) && LeftAlone(h, token, user) && !AllAccepted(s, h, token)
  {
    var s, g := LoggedIn(ttl, user, token), ttl / 2;
    var a, b, c := Resolve(token, g, g, g), Resolve(token, 2 * g, 2 * g, 2 * g), Resolve(token, 3 * g, 3 * g, 3 * g);
    assert [a, b, c][1..] == [b, c] && [b, c][1..] == [c] && [c][1..] == [];
    assert Step(s, a) == s;
    var s2 := Step(s, b);
    assert s2.sessions == s.sessions && 3 * g > ttl;
    assert Answer(s2, c).None?;
    assert !AllAccepted(s2, [c], token) by { assert [c][0] == c && Resolves(c, token); }
    assert Legal(s2, [c], 2 * g) && !AllAccepted(s2, [c], token) && Spaced([c], token, 2 * g, g);
    assert Legal(s, [b, c], g) && !AllAccepted(s, [b, c], token) && Spaced([b, c], token, g, g);
  }

  /** Any spacing up to g keeps a session alive. */
  ghost predicate KeepsAlive(ttl: int, user: string, token: string, g: int) {
    var s := LoggedIn(ttl, user, token);
    forall h :: Legal(s, h, 0) && Apart(s, h, token) && Spaced(h, token, 0, g) && LeftAlone(h, token, user) ==>
      AllAccepted(s, h, token)
  }

  /** One enabled user with one session opened at time 0. */
  function LoggedIn(ttl: int, user: string, token: string): State {
    State(ttl, map[user := User("viewer", false)], map[token := Session(user, ttl)], [], [], {token}, {user})
  }

  /** floor(TTL/2) is the largest spacing that keeps every session alive. */
  lemma HalfTtlIsExact(ttl: int, user: string, token: string, g: int)
    requires ttl > 0 && token != "" && g >= 0
    ensures KeepsAlive(ttl, user, token, g) <==> g <= ttl / 2
  {
    var s := LoggedIn(ttl, user, token);
    if g <= ttl / 2 {
      forall h | Legal(s, h, 0) && Apart(s, h, token) && Spaced(h, token, 0, g) && LeftAlone(h, token, user)
        ensures AllAccepted(s, h, token)
      {
        WiderSpacing(h, token, 0, g, ttl / 2);
        UsedSessionLives(s, h, token, user, 0, 0);
      }
    } else {
      var a := ttl - ttl / 2;
      var first, second := Resolve(token, a, a, a), Resolve(token, ttl + 1, ttl + 1, ttl + 1);
      var h := [first, second];
      assert h[1..] == [second] && h[1..][1..] == [];
      assert Step(s, first) == s;
      assert Legal(s, [second], a) && Legal(s, h, 0);
      assert Apart(s, [second], token) && Apart(s, h, token);
      assert Spaced([second], token, a, g) && Spaced(h, token, 0, g);
      assert !AllAccepted(s, [second], token);
      assert !AllAccepted(s, h, token);
      assert LeftAlone(h, token, user);
    }
  }

  lemma {:induction false} WiderSpacing(h: seq<Event>, token: string, last: int, g: int, g': int)
    requires Spaced(h, token, last, g) && g <= g'
    ensures Spaced(h, token, last, g')
  {
    if h == [] {
    } else {
      WiderSpacing(h[1..], token, if Resolves(h[0], token) then h[0].until else last, g, g');
    }
  }

  // ---------------------------------------------------------------- a dead session stays dead

  /** No write in flight gives the session a later expiry than this. */
  predicate WritesUpTo(s: State, token: string, x: int) {
    forall k :: 0 <= k < |s.touches| && Sliding(s, token, k) ==> s.touches[k].expires <= x
  }

  /** No resolve of an issued token can succeed any more. */
  predicate Dead(s: State, token: string, clock: int) {
    && token in s.issued
    && (token in s.sessions ==>
          || (s.sessions[token].expires < clock && WritesUpTo(s, token, clock - 1))
          || (s.sessions[token].user in s.created && s.sessions[token].user !in s.users))
  }

  lemma {:induction false} DeadStaysDead(s: State, h: seq<Event>, token: string, clock: int)
    requires Legal(s, h, clock) && Dead(s, token, clock)
    ensures NoneAccepted(s, h, token)
    decreases h
  {
    if h == [] {
    } else {
      DeadStaysDead(Step(s, h[0]), h[1..], token, Clock(h[0], clock));
    }
  }

  /** A token that was issued and then rejected once is rejected for ever. */
  lemma RejectionIsFinal(s: State, e: Event, h: seq<Event>, clock: int)
    requires Good(s, clock) && e.Resolve? && e.token in s.issued && Answer(s, e).None?
    requires Legal(s, [e] + h, clock)
    ensures NoneAccepted(s, [e] + h, e.token)
  {
    assert ([e] + h)[1..] == h;
    DeadStaysDead(Step(s, e), h, e.token, e.touch);
  }

  /** Along the run, each accepted resolve starts at most TTL after the previous accepted one ended,
      and one that comes later than that is rejected together with all that follow it. */
  predicate IdleEnds(s: State, h: seq<Event>, token: string, last: int)
    decreases h
  {
    h == [] ||
    var s' := Step(s, h[0]);
    if !Resolves(h[0], token) then IdleEnds(s', h[1..], token, last)
    else if h[0].read > last + s.ttl then Answer(s, h[0]).None? && NoneAccepted(s', h[1..], token)
    else IdleEnds(s', h[1..], token, if Answer(s, h[0]).Some? then h[0].touch else last)
  }

  lemma {:induction false} IdleSessionEnds(s: State, h: seq<Event>, token: string, last: int, clock: int)
    requires Legal(s, h, clock) && s.ttl > 0 && last <= clock && token in s.issued
    requires token in s.sessions ==> s.sessions[token].expires <= last + s.ttl
    requires WritesUpTo(s, token, last + s.ttl)
    ensures IdleEnds(s, h, token, last)
    decreases h
  {
    if h == [] {
    } else {
      var e, s' := h[0], Step(s, h[0]);
      if !Resolves(e, token) {
        IdleSessionEnds(s', h[1..], token, last, Clock(e, clock));
      } else if e.read > last + s.ttl {
        DeadStaysDead(s', h[1..], token, e.touch);
      } else {
        IdleSessionEnds(s', h[1..], token, if Answer(s, e).Some? then e.touch else last, e.touch);
      }
    }
  }

  // ---------------------------------------------------------------- disabled and deleted users

  /** No event of the run answers with this user. */
  predicate NeverReturned(s: State, h: seq<Event>, user: string)
    decreases h
  {
    h == [] || ((h[0].Resolve? ==> Answer(s, h[0]) != Some(user)) && NeverReturned(Step(s, h[0]), h[1..], user))
  }

  /** From the moment its row is deleted, a user is never returned again. */
  lemma {:induction false} DeletedUserNeverReturned(s: State, h: seq<Event>, user: string, clock: int)
    requires Legal(s, h, clock) && user in s.created && user !in s.users
    ensures NeverReturned(s, h, user)
    decreases h
  {
    if h == [] {
    } else {
      DeletedUserNeverReturned(Step(s, h[0]), h[1..], user, Clock(h[0], clock));
    }
  }

  predicate NobodyEnables(h: seq<Event>, user: string) {
    forall i :: 0 <= i < |h| ==> h[i] != BeginEdit(user, ToDisabled(false))
  }

  /** A disabled user is not returned until somebody enables it, unless an enabled row of it is about
      to be written back. */
  lemma {:induction false} DisabledUserNotReturned(s: State, h: seq<Event>, user: string, clock: int)
    requires Legal(s, h, clock) && NobodyEnables(h, user)
    requires user in s.created && (user in s.users ==> s.users[user].disabled) && EditsCarry(s, user, true)
    ensures NeverReturned(s, h, user)
    decreases h
  {
    if h == [] {
    } else {
      forall i | 0 <= i < |h[1..]| ensures h[1..][i] != BeginEdit(user, ToDisabled(false)) {
        assert h[1..][i] == h[i+1];
      }
      assert h[0] != BeginEdit(user, ToDisabled(false));
      DisabledUserNotReturned(Step(s, h[0]), h[1..], user, Clock(h[0], clock));
    }
  }

  lemma {:induction false} LongerThanAll(ts: set<string>) returns (n: nat)
    ensures n >= 1 && forall t :: t in ts ==> |t| < n
    decreases ts
  {
    if ts == {} {
      n := 1;
    } else {
      var t :| t in ts;
      var m := LongerThanAll(ts - {t});
      n := if m > |t| then m else |t| + 1;
    }
  }

  /** There is always a token that was never issued. */
  lemma FreshToken(s: State) returns (t: string)
    ensures t !in s.issued && t != ""
  {
    var n := LongerThanAll(s.issued);
    t := seq(n, i => 'x');
  }

  lemma ReturnedAtOnce(s: State, e: Event, user: string)
    requires e.Resolve? && Answer(s, e) == Some(user)
    ensures !NeverReturned(s, [e], user)
  {
  }

  lemma ReturnedLater(s: State, e: Event, h: seq<Event>, user: string)
    requires !NeverReturned(Step(s, e), h, user)
    ensures !NeverReturned(s, [e] + h, user)
  {
    assert ([e] + h)[1..] == h;
  }

  /** Writing an enabled row back, and a login after it. */
  lemma UndoneDisable(s: State, user: string, clock: int, k: nat) returns (h: seq<Event>)
    requires Good(s, clock) && user in s.users && k < |s.edits|
    requires !s.edits[k].done && s.edits[k].user == user && !s.edits[k].row.disabled
    ensures Legal(s, h, clock) && NobodyEnables(h, user) && !NeverReturned(s, h, user)
  {
    var t := FreshToken(s);
    var write, login, resolve := EndEdit(k), Login(user, t, clock), Resolve(t, clock, clock, clock);
    var s1 := Step(s, write);
    var s2 := Step(s1, login);
    h := [write] + ([login] + [resolve]);
    ReturnedAtOnce(s2, resolve, user);
    ReturnedLater(s1, login, [resolve], user);
    ReturnedLater(s, write, [login] + [resolve], user);
    assert h[1..] == [login] + [resolve] && ([login] + [resolve])[1..] == [resolve] && [resolve][1..] == [];
    assert Legal(s2, [resolve], clock);
    assert Legal(s1, [login] + [resolve], clock);
  }

  /** A disabled user can come back without anybody enabling it exactly when a call that read the row
      before it was disabled has not written it back yet. */
  lemma DisabledComesBackExactly(s: State, user: string, clock: int)
    requires Good(s, clock) && user in s.users && s.users[user].disabled
    ensures (exists h :: Legal(s, h, clock) && NobodyEnables(h, user) && !NeverReturned(s, h, user))
        <==> !EditsCarry(s, user, true)
  {
    if EditsCarry(s, user, true) {
      forall h | Legal(s, h, clock) && NobodyEnables(h, user) ensures NeverReturned(s, h, user) {
        DisabledUserNotReturned(s, h, user, clock);
      }
    } else {
      var k :| 0 <= k < |s.edits| && !s.edits[k].done && s.edits[k].user == user && s.edits[k].row.disabled != true;
      var h := UndoneDisable(s, user, clock, k);
    }
  }

  // ---------------------------------------------------------------- the service

  class Service {
    const ttl: int
    var users: map<string, User>
    var sessions: map<string, Session>
    ghost var edits: seq<Edit>     // the rows held by calls between their read and their write
    ghost var touches: seq<Touch>  // the expiries held by resolves, likewise
    ghost var issued: set<string>
    ghost var created: set<string>

    ghost function View(): State
      reads this
    {
      State(ttl, users, sessions, edits, touches, issued, created)
    }

    /** A lifetime that is not positive becomes twelve hours, in seconds here. */
    constructor (ttl: int)
      ensures this.ttl == (if ttl <= 0 then 43200 else ttl) && Good(View(), 0)
      ensures users == map[] && sessions == map[]
    {
      this.ttl := if ttl <= 0 then 43200 else ttl;
      users, sessions, edits, touches, issued, created := map[], map[], [], [], {}, {};
    }

    method CreateUser(user: string, role: string)
      requires Enabled(View(), Event.CreateUser(user, role))
      modifies this
      ensures View() == Step(old(View()), Event.CreateUser(user, role))
    {
      users := users[user := User(role, false)];
      created := created + {user};
    }

    method StartSession(user: string, token: string, now: int)
      requires Enabled(View(), Login(user, token, now))
      modifies this
      ensures View() == Step(old(View()), Login(user, token, now))
    {
      sessions := sessions[token := Session(user, now + ttl)];
      issued := issued + {token};
    }

    /** ResolveSession up to the decision to slide the expiry. */
    method Examine(token: string, read: int, until: int, touch: int)
      returns (r: Option<string>, slide: Option<int>, ghost k: nat)
      requires Good(View(), read) && read <= until <= touch
      modifies this`sessions, this`touches
      ensures View() == Step(old(View()), Resolve(token, read, until, touch))
      ensures r == Answer(old(View()), Resolve(token, read, until, touch))
      ensures slide.Some? <==> Slides(old(View()), Resolve(token, read, until, touch))
      ensures slide.Some? ==>
        k == |old(touches)| && k < |touches| && touches[k] == Touch(token, slide.value, false)
    {
      k := |touches|;
      if token == "" { return None, None, k; }
      if token !in sessions { return None, None, k; }
      var sess := sessions[token];
      if read > sess.expires {
        DeleteSession(token);
        return None, None, k;
      }
      if sess.user !in users { return None, None, k; }
      var u := users[sess.user];
      if u.disabled {
        DeleteSession(token);
        return None, None, k;
      }
      if sess.expires - until < ttl / 2 {
        touches := touches + [Touch(token, touch + ttl, false)];
        return Some(sess.user), Some(touch + ttl), k;
      }
      return Some(sess.user), None, k;
    }

    /** touchSession writes the expiry it was given, whatever the row says by now. */
    method TouchSession(token: string, expires: int, ghost k: nat)
      requires k < |touches| && touches[k] == Touch(token, expires, false)
      modifies this`sessions, this`touches
      ensures View() == Step(old(View()), EndTouch(k))
    {
      if token in sessions {
        sessions := sessions[token := sessions[token].(expires := expires)];
      }
      touches := touches[k := Touch(token, expires, true)];
    }

    /** With nothing in between. */
    method ResolveSession(token: string, read: int, until: int, touch: int) returns (r: Option<string>)
      requires Good(View(), read) && read <= until <= touch
      modifies this`sessions, this`touches
      ensures r == Answer(old(View()), Resolve(token, read, until, touch))
      ensures View() == Resolved(old(View()), Resolve(token, read, until, touch))
      ensures r.Some? ==> r.value in users && !users[r.value].disabled
      ensures r.Some? ==>
        token in sessions && sessions[token].expires - until >= ttl / 2 && sessions[token].expires >= read
    {
      ghost var k;
      var slide;
      r, slide, k := Examine(token, read, until, touch);
      if slide.Some? {
        TouchSession(token, slide.value, k);
      }
    }

    method DeleteSession(token: string)
      modifies this`sessions
      ensures View() == Step(old(View()), Event.Logout(token))
    {
      sessions := sessions - {token};
    }

    method Logout(token: string)
      modifies this`sessions
      ensures View() == Step(old(View()), Event.Logout(token))
    {
      DeleteSession(token);
    }

    /** userByID and the change, in SetDisabled, SetRole, SetPassword and an external login. */
    method ReadUser(user: string, change: Change) returns (row: Option<User>, ghost k: nat)
      modifies this`edits
      ensures View() == Step(old(View()), BeginEdit(user, change))
      ensures row == if user in users then Some(Changed(users[user], change)) else None
      ensures row.Some? ==> k == |old(edits)| && k < |edits| && edits[k] == Edit(user, row.value, false)
    {
      k := |edits|;
      if user !in users { return None, k; }
      row := Some(Changed(users[user], change));
      edits := edits + [Edit(user, row.value, false)];
    }

    /** updateUser writes the row as it was read and changed, whatever it says by now. */
    method WriteUser(user: string, row: User, ghost k: nat)
      requires k < |edits| && edits[k] == Edit(user, row, false)
      modifies this`users, this`edits
      ensures View() == Step(old(View()), EndEdit(k))
    {
      if user in users {
        users := users[user := row];
      }
      edits := edits[k := Edit(user, row, true)];
    }

    /** SetDisabled, SetRole and SetPassword, with nothing in between. */
    method EditUser(user: string, change: Change) returns (found: bool)
      modifies this`users, this`edits
      ensures found == (user in old(users))
      ensures users == if found then old(users)[user := Changed(old(users)[user], change)] else old(users)
      ensures forall i :: 0 <= i < |edits| ==> (i < |old(edits)| && edits[i] == old(edits)[i]) || edits[i].done
    {
      ghost var k;
      var row;
      row, k := ReadUser(user, change);
      if row.None? { return false; }
      WriteUser(user, row.value, k);
      return true;
    }

    /** Both statements; the second runs only when the first removed a row. */
    method DeleteUser(user: string) returns (found: bool)
      modifies this`users, this`sessions
      ensures found == (user in old(users))
      ensures View() == if found then Step(Step(old(View()), DropUser(user)), DropSessions(user)) else old(View())
    {
      found := user in users;
      if !found { return; }
      users := users - {user};
      sessions := map t | t in sessions && sessions[t].user != user :: sessions[t];
    }

    method PurgeExpired(now: int)
      modifies this`sessions
      ensures View() == Step(old(View()), Purge(now))
      ensures forall t :: t in old(sessions) ==>
        (t !in sessions <==> old(sessions)[t].expires < now)
      ensures forall t, read, until, touch :: t in old(sessions) && t !in sessions && now <= read ==>
        Answer(old(View()), Resolve(t, read, until, touch)) == None
    {
      sessions := map t | t in sessions && sessions[t].expires >= now :: sessions[t];
    }
  }
}
