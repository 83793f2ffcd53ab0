/** The checkpoint store keyed by `thread_id`: interleaved sessions do not
    influence each other. */
module Sessions {
  import opened Text
  import opened Messages
  import opened History
  import opened Partition
  import opened Chat

  datatype RequestContext = RequestContext(sysCode: string, sessionId: string, userId: Option<string>, workflow: string)

  function UserKey(ctx: RequestContext): string {
    if ctx.userId.GetOr("") == "" then "-" else ctx.userId.value
  }

  const SYS_CODE := "|sys_code="
  const USER_ID := "|user_id="
  const SESSION_ID := "|session_id="

  function ThreadId(ctx: RequestContext): string {
    "workflow=" + (ctx.workflow + SYS_CODE + (ctx.sysCode + USER_ID + (UserKey(ctx) + SESSION_ID + ctx.sessionId)))
  }

  /** The same user of the same session: no user id, an empty one and "-" are one. */
  predicate SameSession(a: RequestContext, b: RequestContext) {
    a.workflow == b.workflow && a.sysCode == b.sysCode && UserKey(a) == UserKey(b) && a.sessionId == b.sessionId
  }

  // ------------------------------------------------------------ labels in values

  predicate OccursAt(mark: string, s: string, i: nat) {
    i + |mark| <= |s| && s[i..i + |mark|] == mark
  }

  /** The label occurs in `s`, at position `from` or later. */
  ghost predicate Occurs(mark: string, s: string, from: nat) {
    exists i: nat :: i >= from && OccursAt(mark, s, i)
  }

  /** No value holds the label that follows it. A user id may begin with its
      label, since the user before that label would have no name. */
  ghost predicate Separable(ctx: RequestContext) {
    && !Occurs(SYS_CODE, ctx.workflow, 0)
    && !Occurs(USER_ID, ctx.sysCode, 0)
    && !Occurs(SESSION_ID, UserKey(ctx), 1)
  }

  /** The labels begin with their only `|`, so that two of them never overlap. */
  predicate IsLabel(mark: string) {
    mark != "" && mark[0] == '|' && forall i :: 0 < i < |mark| ==> mark[i] != '|'
  }

  lemma Labels()
    ensures IsLabel(SYS_CODE) && IsLabel(USER_ID) && IsLabel(SESSION_ID)
  {
    assert |SYS_CODE| == 10 && |USER_ID| == 9 && |SESSION_ID| == 12;
    assert SYS_CODE[0] == USER_ID[0] == SESSION_ID[0] == '|';
  }

  /** Two values before the same label: the shorter one ends where the label
      occurs in the longer one, so neither is shorter. */
  lemma FieldNotShorter(mark: string, from: nat, a: string, b: string, restA: string, restB: string)
    requires IsLabel(mark) && from <= |a| && !Occurs(mark, b, from)
    requires a + mark + restA == b + mark + restB
    ensures |a| >= |b|
  {
    var all, n := a + mark + restA, |a|;
    assert all[n..n + |mark|] == mark;
    assert (b + mark + restB)[|b|] == '|';
    assert forall j :: n < j < n + |mark| ==> all[j] == mark[j - n];
    if n + |mark| <= |b| {
      assert (b + mark + restB)[n..n + |mark|] == b[n..n + |mark|];
      assert OccursAt(mark, b, n);
    }
  }

  lemma FieldEnds(mark: string, from: nat, a: string, b: string, restA: string, restB: string)
    requires IsLabel(mark) && from <= |a| && from <= |b|
    requires !Occurs(mark, a, from) && !Occurs(mark, b, from)
    requires a + mark + restA == b + mark + restB
    ensures a == b && restA == restB
  {
    FieldNotShorter(mark, from, a, b, restA, restB);
    FieldNotShorter(mark, from, b, a, restB, restA);
    var all := a + mark + restA;
    assert a == all[..|a|] && b == all[..|b|];
    assert restA == all[|a| + |mark|..] && restB == all[|b| + |mark|..];
  }

  lemma LabelCancels(prefix: string, a: string, b: string)
    requires prefix + a == prefix + b
    ensures a == b
  {
    assert a == (prefix + a)[|prefix|..];
  }

  /** Requests whose values hold no following label share a thread exactly when
      they are of the same session. The session id may hold anything. */
  lemma ThreadIdInjective(a: RequestContext, b: RequestContext)
    requires Separable(a) && Separable(b)
    ensures ThreadId(a) == ThreadId(b) <==> SameSession(a, b)
  {
    if ThreadId(a) == ThreadId(b) {
      Labels();
      var userA, userB := UserKey(a) + SESSION_ID + a.sessionId, UserKey(b) + SESSION_ID + b.sessionId;
      var sysA, sysB := a.sysCode + USER_ID + userA, b.sysCode + USER_ID + userB;
      LabelCancels("workflow=", a.workflow + SYS_CODE + sysA, b.workflow + SYS_CODE + sysB);
      FieldEnds(SYS_CODE, 0, a.workflow, b.workflow, sysA, sysB);
      FieldEnds(USER_ID, 0, a.sysCode, b.sysCode, userA, userB);
      FieldEnds(SESSION_ID, 1, UserKey(a), UserKey(b), a.sessionId, b.sessionId);
    }
  }

  // ---------------------------------------------------------------- collisions

  /** The text before the first occurrence of a label does not hold it. */
  lemma {:induction false} SplitAtFirst(mark: string, s: string, from: nat, k: nat) returns (i: nat)
    requires mark != "" && from <= k && OccursAt(mark, s, k)
    ensures from <= i <= k && OccursAt(mark, s, i) && (i == k || i + |mark| <= k)
    ensures !Occurs(mark, s[..i], from)
    decreases k
  {
    if Occurs(mark, s[..k], from) {
      var j: nat :| j >= from && OccursAt(mark, s[..k], j);
      assert s[..k][j..j + |mark|] == s[j..j + |mark|];
      i := SplitAtFirst(mark, s, from, j);
    } else {
      i := k;
    }
  }

  /** A value and what follows its label, split again at the first occurrence:
      whatever followed the label still ends the new rest. */
  lemma Resplit(mark: string, value: string, rest: string, from: nat) returns (v: string, r: string)
    requires mark != "" && from <= |value|
    ensures v + mark + r == value + mark + rest
    ensures from <= |v| && !Occurs(mark, v, from)
    ensures |r| >= |rest| && r[|r| - |rest|..] == rest
  {
    var s, n := value + mark + rest, |value|;
    assert s[n..n + |mark|] == mark;
    var i := SplitAtFirst(mark, s, from, n);
    v, r := s[..i], s[i + |mark|..];
    assert s == s[..i] + s[i..i + |mark|] + s[i + |mark|..];
    assert s[n + |mark|..] == rest;
  }

  /** Cutting a rest into what was put before the next field, and the field. */
  lemma FieldGrows(value: string, mark: string, rest: string, r: string) returns (grown: string)
    requires var before := value + mark + rest; |r| >= |before| && r[|r| - |before|..] == before
    ensures r == grown + mark + rest && |grown| >= |value|
  {
    var tail := value + mark + rest;
    var extra := r[..|r| - |tail|];
    assert r == extra + tail;
    grown := extra + value;
    assert extra + (value + mark + rest) == (extra + value) + mark + rest;
  }

  /** Every thread id is that of a session whose values hold no label. */
  lemma SeparableSession(a: RequestContext) returns (b: RequestContext)
    ensures Separable(b) && ThreadId(b) == ThreadId(a)
  {
    var userA := UserKey(a) + SESSION_ID + a.sessionId;
    var sysA := a.sysCode + USER_ID + userA;
    var workflow, sysB := Resplit(SYS_CODE, a.workflow, sysA, 0);
    var sysGrown := FieldGrows(a.sysCode, USER_ID, userA, sysB);
    var sysCode, userB := Resplit(USER_ID, sysGrown, userA, 0);
    var userGrown := FieldGrows(UserKey(a), SESSION_ID, a.sessionId, userB);
    var user, sessionId := Resplit(SESSION_ID, userGrown, a.sessionId, 1);
    b := RequestContext(sysCode, sessionId, Some(user), workflow);
  }

  /** A session shares its thread with a different one whose values hold no label
      exactly when one of its own values does. */
  lemma SeparablePartnerIff(a: RequestContext)
    ensures (exists b :: Separable(b) && ThreadId(b) == ThreadId(a) && !SameSession(a, b)) <==> !Separable(a)
  {
    if Separable(a) {
      forall b | Separable(b) && ThreadId(b) == ThreadId(a) ensures SameSession(a, b) {
        ThreadIdInjective(a, b);
      }
    } else {
      var b := SeparableSession(a);
      assert !SameSession(a, b);
    }
  }

  // --------------------------------------------------- sessions that stand alone

  /** No other session has the thread id: neither value beside a label holds it.
      A user id may begin with "|session_id=" or end with "|user_id=", since a user
      between those labels would have no name. */
  ghost predicate Alone(ctx: RequestContext) {
    && !Occurs(SYS_CODE, ctx.workflow, 0) && !Occurs(SYS_CODE, ctx.sysCode, 0)
    && !Occurs(USER_ID, ctx.sysCode, 0) && !OccursInside(USER_ID, UserKey(ctx))
    && !Occurs(SESSION_ID, UserKey(ctx), 1) && !Occurs(SESSION_ID, ctx.sessionId, 0)
  }

  /** The label occurs in `s`, but not just at its end. */
  ghost predicate OccursInside(mark: string, s: string) {
    exists i: nat :: OccursAt(mark, s, i) && i + |mark| < |s|
  }

  /** When the value before a label grows, the label moves into what followed it. */
  lemma LaterLabel(mark: string, a: string, restA: string, b: string, restB: string) returns (x: string)
    requires IsLabel(mark) && |a| < |b| && a + mark + restA == b + mark + restB
    ensures b == a + mark + x && restA == x + mark + restB
  {
    var all, n := a + mark + restA, |a| + |mark|;
    assert all[|b|] == (b + mark + restB)[|b|] == '|';
    assert forall j :: |a| < j < n ==> all[j] == mark[j - |a|];
    assert |b| >= n;
    x := b[n..];
    assert b == all[..|b|] && all[..n] == a + mark;
    assert b[..n] == all[..n];
    assert restA == all[n..] && (b + mark + restB)[n..] == b[n..] + mark + restB;
  }

  lemma OccursBetween(mark: string, x: string, y: string)
    ensures OccursAt(mark, x + mark + y, |x|)
  {
  }

  lemma LastFieldAlone(user: string, session: string, v: string, other: string)
    requires user != "" && v != "" && !Occurs(SESSION_ID, user, 1) && !Occurs(SESSION_ID, session, 0)
    requires user + SESSION_ID + session == v + SESSION_ID + other
    ensures v == user && other == session
  {
    Labels();
    FieldNotShorter(SESSION_ID, 1, v, user, other, session);
    if |user| < |v| {
      var x := LaterLabel(SESSION_ID, user, session, v, other);
      OccursBetween(SESSION_ID, x, other);
    }
    assert user == (user + SESSION_ID + session)[..|user|] && v == (v + SESSION_ID + other)[..|v|];
    LabelCancels(user + SESSION_ID, session, other);
  }

  lemma UserFieldAlone(sysCode: string, user: string, session: string, y: string, user': string, session': string)
    requires user != "" && user' != "" && !Occurs(USER_ID, sysCode, 0) && !OccursInside(USER_ID, user)
    requires !Occurs(SESSION_ID, user, 1) && !Occurs(SESSION_ID, session, 0)
    requires sysCode + USER_ID + (user + SESSION_ID + session) == y + USER_ID + (user' + SESSION_ID + session')
    ensures y == sysCode && user' == user && session' == session
  {
    Labels();
    var rest, rest' := user + SESSION_ID + session, user' + SESSION_ID + session';
    FieldNotShorter(USER_ID, 0, y, sysCode, rest', rest);
    if |sysCode| < |y| {
      var x := LaterLabel(USER_ID, sysCode, rest, y, rest');
      var v := x + USER_ID + user';
      assert x + USER_ID + rest' == v + SESSION_ID + session';
      LastFieldAlone(user, session, v, session');
      OccursBetween(USER_ID, x, user');
    }
    assert sysCode == (sysCode + USER_ID + rest)[..|sysCode|] && y == (y + USER_ID + rest')[..|y|];
    LabelCancels(sysCode + USER_ID, rest, rest');
    LastFieldAlone(user, session, user', session');
  }

  /** A session that stands alone shares its thread with no other, whatever the
      values of the other hold. */
  lemma AloneSharesNothing(a: RequestContext, b: RequestContext)
    requires Alone(a)
    ensures ThreadId(a) == ThreadId(b) <==> SameSession(a, b)
  {
    if ThreadId(a) == ThreadId(b) {
      Labels();
      var userA, userB := UserKey(a) + SESSION_ID + a.sessionId, UserKey(b) + SESSION_ID + b.sessionId;
      var sysA, sysB := a.sysCode + USER_ID + userA, b.sysCode + USER_ID + userB;
      LabelCancels("workflow=", a.workflow + SYS_CODE + sysA, b.workflow + SYS_CODE + sysB);
      FieldNotShorter(SYS_CODE, 0, b.workflow, a.workflow, sysB, sysA);
      if |a.workflow| < |b.workflow| {
        var x := LaterLabel(SYS_CODE, a.workflow, sysA, b.workflow, sysB);
        var y := x + SYS_CODE + b.sysCode;
        assert x + SYS_CODE + sysB == y + USER_ID + userB;
        UserFieldAlone(a.sysCode, UserKey(a), a.sessionId, y, UserKey(b), b.sessionId);
        OccursBetween(SYS_CODE, x, b.sysCode);
      }
      assert a.workflow == (a.workflow + SYS_CODE + sysA)[..|a.workflow|];
      assert b.workflow == (b.workflow + SYS_CODE + sysB)[..|b.workflow|];
      LabelCancels(a.workflow + SYS_CODE, sysA, sysB);
      UserFieldAlone(a.sysCode, UserKey(a), a.sessionId, b.sysCode, UserKey(b), b.sessionId);
    }
  }

  lemma SplitAt(mark: string, s: string, i: nat) returns (x: string, y: string)
    requires OccursAt(mark, s, i)
    ensures s == x + mark + y && |x| == i
  {
    x, y := s[..i], s[i + |mark|..];
    assert s == s[..i] + s[i..i + |mark|] + s[i + |mark|..];
  }

  /** A value that holds a label beside it is cut there, or joined there with what
      follows or comes before. */
  lemma PartnerByWorkflow(a: RequestContext) returns (b: RequestContext)
    requires Occurs(SYS_CODE, a.workflow, 0) || Occurs(SYS_CODE, a.sysCode, 0)
    ensures ThreadId(b) == ThreadId(a) && b.workflow != a.workflow
  {
    if Occurs(SYS_CODE, a.workflow, 0) {
      var i: nat :| OccursAt(SYS_CODE, a.workflow, i);
      var x, y := SplitAt(SYS_CODE, a.workflow, i);
      b := a.(workflow := x, sysCode := y + SYS_CODE + a.sysCode);
      assert |x| < |a.workflow|;
      assert b.workflow + SYS_CODE + b.sysCode == (x + SYS_CODE + y) + SYS_CODE + a.sysCode;
    } else {
      var i: nat :| OccursAt(SYS_CODE, a.sysCode, i);
      var x, y := SplitAt(SYS_CODE, a.sysCode, i);
      b := a.(workflow := a.workflow + SYS_CODE + x, sysCode := y);
      assert |b.workflow| > |a.workflow|;
      assert b.workflow + SYS_CODE + b.sysCode == a.workflow + SYS_CODE + (x + SYS_CODE + y);
    }
    WorkflowAndRest(a);
    WorkflowAndRest(b);
  }

  lemma WorkflowAndRest(a: RequestContext)
    ensures ThreadId(a) == "workflow=" + ((a.workflow + SYS_CODE + a.sysCode)
                             + (USER_ID + (UserKey(a) + SESSION_ID + a.sessionId)))
  {
    var user := UserKey(a) + SESSION_ID + a.sessionId;
    Associate(a.workflow + SYS_CODE, a.sysCode, USER_ID + user);
    Associate(a.sysCode, USER_ID, user);
  }

  lemma PartnerBySysCode(a: RequestContext) returns (b: RequestContext)
    requires Occurs(USER_ID, a.sysCode, 0) || OccursInside(USER_ID, UserKey(a))
    ensures ThreadId(b) == ThreadId(a) && b.sysCode != a.sysCode
  {
    if Occurs(USER_ID, a.sysCode, 0) {
      var i: nat :| OccursAt(USER_ID, a.sysCode, i);
      var x, y := SplitAt(USER_ID, a.sysCode, i);
      b := a.(sysCode := x, userId := Some(y + USER_ID + UserKey(a)));
      assert |x| < |a.sysCode|;
      assert b.sysCode + USER_ID + UserKey(b) == (x + USER_ID + y) + USER_ID + UserKey(a);
    } else {
      var i: nat :| OccursAt(USER_ID, UserKey(a), i) && i + |USER_ID| < |UserKey(a)|;
      var x, y := SplitAt(USER_ID, UserKey(a), i);
      b := a.(sysCode := a.sysCode + USER_ID + x, userId := Some(y));
      assert |b.sysCode| > |a.sysCode|;
      assert b.sysCode + USER_ID + UserKey(b) == a.sysCode + USER_ID + (x + USER_ID + y);
    }
    SysCodeAndRest(a);
    SysCodeAndRest(b);
  }

  lemma SysCodeAndRest(a: RequestContext)
    ensures ThreadId(a) == "workflow=" + (a.workflow + SYS_CODE
                             + ((a.sysCode + USER_ID + UserKey(a)) + (SESSION_ID + a.sessionId)))
  {
    Associate(a.sysCode + USER_ID, UserKey(a), SESSION_ID + a.sessionId);
    Associate(UserKey(a), SESSION_ID, a.sessionId);
  }

  lemma PartnerByUser(a: RequestContext) returns (b: RequestContext)
    requires Occurs(SESSION_ID, UserKey(a), 1) || Occurs(SESSION_ID, a.sessionId, 0)
    ensures ThreadId(b) == ThreadId(a) && UserKey(b) != UserKey(a)
  {
    if Occurs(SESSION_ID, UserKey(a), 1) {
      var i: nat :| i >= 1 && OccursAt(SESSION_ID, UserKey(a), i);
      var x, y := SplitAt(SESSION_ID, UserKey(a), i);
      b := a.(userId := Some(x), sessionId := y + SESSION_ID + a.sessionId);
      assert |x| < |UserKey(a)|;
    } else {
      var i: nat :| OccursAt(SESSION_ID, a.sessionId, i);
      var x, y := SplitAt(SESSION_ID, a.sessionId, i);
      b := a.(userId := Some(UserKey(a) + SESSION_ID + x), sessionId := y);
      assert |UserKey(b)| > |UserKey(a)|;
    }
    assert UserKey(b) + SESSION_ID + b.sessionId == UserKey(a) + SESSION_ID + a.sessionId;
  }

  /** A session shares its thread with a different one exactly when it does not
      stand alone. */
  lemma ThreadIdsCollideIff(a: RequestContext)
    ensures (exists b :: ThreadId(a) == ThreadId(b) && !SameSession(a, b)) <==> !Alone(a)
  {
    if Alone(a) {
      forall b | ThreadId(a) == ThreadId(b) ensures SameSession(a, b) {
        AloneSharesNothing(a, b);
      }
    } else if Occurs(SYS_CODE, a.workflow, 0) || Occurs(SYS_CODE, a.sysCode, 0) {
      var b := PartnerByWorkflow(a);
      assert !SameSession(a, b);
    } else if Occurs(USER_ID, a.sysCode, 0) || OccursInside(USER_ID, UserKey(a)) {
      var b := PartnerBySysCode(a);
      assert !SameSession(a, b);
    } else {
      var b := PartnerByUser(a);
      assert !SameSession(a, b);
    }
  }

  /** For instance: a user id that holds "|session_id=" behind a first character
      always has such a partner. */
  lemma ThreadIdsCollide(workflow: string, sysCode: string, sessionId: string, p: string, q: string)
    requires p != ""
    ensures var a := RequestContext(sysCode, sessionId, Some(p + SESSION_ID + q), workflow);
            var b := RequestContext(sysCode, q + SESSION_ID + sessionId, Some(p), workflow);
            !SameSession(a, b) && ThreadId(a) == ThreadId(b)
  {
    var user := p + SESSION_ID + q;
    assert |user| > |p|;
    assert user + SESSION_ID + sessionId == p + SESSION_ID + (q + SESSION_ID + sessionId);
  }

  /** Without any `|` a session stands alone. */
  lemma PipeFreeIsAlone(ctx: RequestContext)
    requires '|' !in ctx.workflow && '|' !in ctx.sysCode && '|' !in UserKey(ctx) && '|' !in ctx.sessionId
    ensures Alone(ctx) && Separable(ctx)
  {
    Labels();
    NoPipeNoLabel(SYS_CODE, ctx.workflow, 0);
    NoPipeNoLabel(SYS_CODE, ctx.sysCode, 0);
    NoPipeNoLabel(USER_ID, ctx.sysCode, 0);
    NoPipeNoLabel(USER_ID, UserKey(ctx), 0);
    NoPipeNoLabel(SESSION_ID, UserKey(ctx), 1);
    NoPipeNoLabel(SESSION_ID, ctx.sessionId, 0);
  }

  lemma NoPipeNoLabel(mark: string, s: string, from: nat)
    requires IsLabel(mark) && '|' !in s
    ensures !Occurs(mark, s, from)
  {
    assert forall i: nat :: i + |mark| <= |s| ==> s[i..i + |mark|][0] == s[i];
  }

  // ------------------------------------------------------------ in plain values

  /** The thread id, written out. */
  lemma ThreadIdText(ctx: RequestContext)
    ensures var user := if ctx.userId == None || ctx.userId == Some("") then "-" else ctx.userId.value;
            ThreadId(ctx) == "workflow=" + ctx.workflow + "|sys_code=" + ctx.sysCode
                             + "|user_id=" + user + "|session_id=" + ctx.sessionId
  {
    Regroup("workflow=", ctx.workflow, "|sys_code=", ctx.sysCode, "|user_id=", UserKey(ctx),
            "|session_id=", ctx.sessionId);
  }

  lemma Regroup(a: string, b: string, c: string, d: string, e: string, f: string, g: string, h: string)
    ensures a + (b + c + (d + e + (f + g + h))) == a + b + c + d + e + f + g + h
  {
    Associate(d + e, f + g, h);
    Associate(d + e, f, g);
    Associate(b + c, d + e + f + g, h);
    Associate(b + c, d + e + f, g);
    Associate(b + c, d + e, f);
    Associate(b + c, d, e);
    Associate(a, b + c + d + e + f + g, h);
    Associate(a, b + c + d + e + f, g);
    Associate(a, b + c + d + e, f);
    Associate(a, b + c + d, e);
    Associate(a, b + c, d);
    Associate(a, b, c);
  }

  /** Two requests, one of which stands alone, or whose values hold no following
      label, are on one thread exactly when workflow, system code and session are
      equal, and both have no user (none given, an empty one, or "-") or the same. */
  lemma SameThreadIff(a: RequestContext, b: RequestContext)
    requires Alone(a) || (Separable(a) && Separable(b))
    ensures ThreadId(a) == ThreadId(b)
       <==> a.workflow == b.workflow && a.sysCode == b.sysCode && a.sessionId == b.sessionId
            && (a.userId == b.userId
                || ((a.userId == None || a.userId == Some("") || a.userId == Some("-"))
                    && (b.userId == None || b.userId == Some("") || b.userId == Some("-"))))
  {
    if Alone(a) {
      AloneSharesNothing(a, b);
    } else {
      ThreadIdInjective(a, b);
    }
  }

  // ------------------------------------------------------- interleaved threads

  function Lookup<S>(store: map<string, S>, empty: S, k: string): S {
    if k in store then store[k] else empty
  }

  /** Requests served one after the other, each on the thread of its key. */
  function ServeAll<S, E>(step: (S, E) -> S, empty: S, key: E -> string, store: map<string, S>, events: seq<E>)
    : map<string, S>
    decreases |events|
  {
    if events == [] then store
    else
      var k := key(events[0]);
      ServeAll(step, empty, key, store[k := step(Lookup(store, empty, k), events[0])], events[1..])
  }

  function Fold<S, E>(step: (S, E) -> S, state: S, events: seq<E>): S
    decreases |events|
  {
    if events == [] then state else Fold(step, step(state, events[0]), events[1..])
  }

  /** After any interleaving, a thread is what its own requests made of it. */
  lemma {:induction false} ThreadSeesItsOwn<S, E>(step: (S, E) -> S, empty: S, key: E -> string, store: map<string, S>,
                                                  events: seq<E>, k: string, own: E -> bool)
    requires forall i :: 0 <= i < |events| ==> (own(events[i]) <==> key(events[i]) == k)
    ensures Lookup(ServeAll(step, empty, key, store, events), empty, k)
         == Fold(step, Lookup(store, empty, k), Filter(true, own, events))
    decreases |events|
  {
    if events == [] {
    } else {
      var e, rest := events[0], events[1..];
      var next := store[key(e) := step(Lookup(store, empty, key(e)), e)];
      ThreadSeesItsOwn(step, empty, key, next, rest, k, own);
      var mine := Filter(true, own, rest);
      if key(e) == k {
        assert ([e] + mine)[1..] == mine;
      } else {
        assert [] + mine == mine;
      }
    }
  }

  datatype ChatRequest = ChatRequest(ctx: RequestContext, messages: seq<ReqMessage>, prompt: string, model: Model)

  function ServeChat(history: seq<Message>, r: ChatRequest): seq<Message> {
    ChatTurn(r.prompt, r.model, history, r.messages).history
  }

  function KeyOf(r: ChatRequest): string { ThreadId(r.ctx) }

  function InSession(ctx: RequestContext): ChatRequest -> bool { (r: ChatRequest) => SameSession(r.ctx, ctx) }

  /** A conversation's history after any interleaving of requests is the history
      that the requests of its own session alone would have produced, whatever the
      values of the other requests hold. */
  lemma SessionIsolation(requests: seq<ChatRequest>, ctx: RequestContext)
    requires Alone(ctx)
    ensures Lookup(ServeAll(ServeChat, [], KeyOf, map[], requests), [], ThreadId(ctx))
         == Fold(ServeChat, [], Filter(true, InSession(ctx), requests))
  {
    forall i | 0 <= i < |requests| ensures InSession(ctx)(requests[i]) <==> KeyOf(requests[i]) == ThreadId(ctx) {
      AloneSharesNothing(ctx, requests[i].ctx);
    }
    ThreadSeesItsOwn(ServeChat, [], KeyOf, map[], requests, ThreadId(ctx), InSession(ctx));
  }
}
