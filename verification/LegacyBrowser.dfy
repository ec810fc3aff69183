/** The legacy browser's conditional cache, many of them against one service, with requests in flight. */
module LegacyBrowser {
  import opened Prelude
  import opened Contracts
  import opened Etag

  /** The body the service sends: the stored state, or none yet, at a revision. */
  datatype Payload<S> = Payload(revision: nat, state: Option<S>)

  datatype Reply<S> = NotModified(etag: string) | Ok(payload: Payload<S>, etag: string) | Refused

  /** The closure variables. */
  datatype Cache<S> = Cache(stateEtag: string, cachedState: Option<Payload<S>>)

  function Empty<S>(): Cache<S> { Cache("", None) }

  /** What a load leaves in the closure; `undefined` payloads are None. */
  function AfterLoad<S>(c: Cache<S>, reply: Reply<S>): Cache<S> {
    match reply
    case NotModified(etag) => if c.cachedState.Some? then c else Cache(etag, None)
    case Ok(payload, etag) => Cache(etag, Some(payload))
    case Refused => c
  }

  function AfterSave<S>(c: Cache<S>, reply: Reply<S>): Cache<S> {
    match reply
    case NotModified(etag) => Cache(etag, None)
    case Ok(payload, etag) => Cache(etag, Some(payload))
    case Refused => c
  }

  /** The persistence object; requests are sent with `Condition` and answered later. */
  class OpsPersistence<S> {
    var stateEtag: string
    var cachedState: Option<Payload<S>>

    function View(): Cache<S>
      reads this
    {
      Cache(stateEtag, cachedState)
    }

    constructor ()
      ensures View() == Empty()
    {
      stateEtag, cachedState := "", None;
    }

    /** The conditional header of the next request, if one is sent. */
    method Condition() returns (header: Option<string>)
      ensures header == if stateEtag == "" then None else Some(stateEtag)
    {
      if stateEtag == "" { header := None; } else { header := Some(stateEtag); }
    }

    method FinishLoad(reply: Reply<S>) returns (result: Option<Payload<S>>)
      modifies this
      ensures View() == AfterLoad(old(View()), reply)
      ensures !reply.Refused? ==> result == View().cachedState
      ensures reply.NotModified? && old(cachedState).Some? ==> result == old(cachedState)
    {
      if reply.Refused? { return None; }
      if reply.NotModified? && cachedState.Some? { return cachedState; }
      stateEtag := reply.etag;
      cachedState := if reply.Ok? then Some(reply.payload) else None;
      return cachedState;
    }

    method FinishSave(reply: Reply<S>) returns (result: Option<Payload<S>>)
      modifies this
      ensures View() == AfterSave(old(View()), reply)
      ensures !reply.Refused? ==> result == View().cachedState
    {
      if reply.Refused? { return None; }
      stateEtag := reply.etag;
      cachedState := if reply.Ok? then Some(reply.payload) else None;
      return cachedState;
    }
  }

  // ---------------------------------------------------------------- the service

  /** The stored record after the given commits: each revision has one state for the whole run. */
  function RecordAt<S>(log: seq<S>, revision: nat): Payload<S>
    requires revision <= |log|
  {
    Payload(revision, if revision == 0 then None else Some(log[revision - 1]))
  }

  /** A conditional read: the empty body only when the condition is the current tag. */
  function GetProfile<S>(profile: string, log: seq<S>, ifNoneMatch: Option<string>): Reply<S> {
    var etag := StateEtag(profile, |log|);
    if ifNoneMatch == Some(etag) then NotModified(etag) else Ok(RecordAt(log, |log|), etag)
  }

  /** A conditional write: the condition must be present, must be the tag of the body's revision, and the
      revision must be current. */
  function SaveProfile<S>(profile: string, log: seq<S>, ifMatch: Option<string>, revision: nat, state: S)
    : (Reply<S>, seq<S>)
  {
    if ifMatch != Some(StateEtag(profile, revision)) || revision != |log| then (Refused, log)
    else (Ok(Payload(revision + 1, Some(state)), StateEtag(profile, revision + 1)), log + [state])
  }

  /** A read is answered without a body exactly when the asker named the current tag; any other read gets the
      current record and its tag. */
  lemma ReadsExactly<S>(profile: string, log: seq<S>, ifNoneMatch: Option<string>)
    ensures var reply := GetProfile(profile, log, ifNoneMatch);
            && (reply.NotModified? <==> ifNoneMatch == Some(StateEtag(profile, |log|)))
            && (!reply.NotModified? ==>
                 reply == Ok(Payload(|log|, if log == [] then None else Some(log[|log| - 1])), StateEtag(profile, |log|)))
  {
  }

  /** A write is stored exactly when its condition is the current tag and it names the current revision. */
  lemma WritesExactly<S>(profile: string, log: seq<S>, ifMatch: Option<string>, revision: nat, state: S)
    ensures var (reply, longer) := SaveProfile(profile, log, ifMatch, revision, state);
            && (longer == log + [state] <==> ifMatch == Some(StateEtag(profile, |log|)) && revision == |log|)
            && (reply.Refused? <==> longer == log)
            && (!reply.Refused? ==> reply == Ok(Payload(|log| + 1, Some(state)), StateEtag(profile, |log| + 1)))
  {
    hide StateEtag;
    assert |log + [state]| == |log| + 1;
  }

  // ---------------------------------------------------------------- runs

  datatype Kind<S> = Load | Save(revision: nat, state: S)

  /** A request as sent, with the cache its sender had then, and its reply once served. */
  datatype Request<S> = Request(browser: nat, kind: Kind<S>, condition: Option<string>, sentWith: Cache<S>,
                                reply: Option<Reply<S>>)

  datatype Sys<S> = Sys(log: seq<S>, browsers: map<nat, Cache<S>>, requests: seq<Request<S>>)

  /** Requests and replies may be overtaken, lost, or delivered any number of times late. */
  datatype Action<S> = Send(browser: nat, kind: Kind<S>) | Serve(request: nat) | Deliver(request: nat)

  function CacheOf<S>(s: Sys<S>, browser: nat): Cache<S> {
    if browser in s.browsers then s.browsers[browser] else Empty()
  }

  function Step<S>(profile: string, s: Sys<S>, a: Action<S>): Sys<S> {
    match a
    case Send(b, kind) =>
      var c := CacheOf(s, b);
      var condition := if c.stateEtag == "" then None else Some(c.stateEtag);
      s.(requests := s.requests + [Request(b, kind, condition, c, None)])
    case Serve(i) =>
      if i >= |s.requests| || s.requests[i].reply.Some? then s
      else
        var q := s.requests[i];
        (match q.kind
         case Load => s.(requests := s.requests[i := q.(reply := Some(GetProfile(profile, s.log, q.condition)))])
         case Save(revision, state) =>
           var (reply, log) := SaveProfile(profile, s.log, q.condition, revision, state);
           s.(log := log, requests := s.requests[i := q.(reply := Some(reply))]))
    case Deliver(i) =>
      if i >= |s.requests| || s.requests[i].reply.None? then s
      else
        var q := s.requests[i];
        var c := CacheOf(s, q.browser);
        var next := if q.kind.Load? then AfterLoad(c, q.reply.value) else AfterSave(c, q.reply.value);
        s.(browsers := s.browsers[q.browser := next])
  }

  function Exec<S>(profile: string, initial: seq<S>, actions: seq<Action<S>>): Sys<S> {
    if actions == [] then Sys(initial, map[], [])
    else Step(profile, Exec(profile, initial, actions[..|actions| - 1]), actions[|actions| - 1])
  }

  /** Tag and body describe the same committed revision, or both are absent. */
  ghost predicate Coherent<S>(profile: string, log: seq<S>, c: Cache<S>) {
    || c == Empty()
    || (c.cachedState.Some? && c.cachedState.value.revision <= |log|
        && c.cachedState.value == RecordAt(log, c.cachedState.value.revision)
        && c.stateEtag == StateEtag(profile, c.cachedState.value.revision))
  }

  ghost predicate ReplyOk<S>(profile: string, log: seq<S>, q: Request<S>) {
    match q.reply
    case None => true
    case Some(Refused) => true
    case Some(Ok(payload, etag)) => Coherent(profile, log, Cache(etag, Some(payload)))
    case Some(NotModified(etag)) => q.kind.Load? && q.sentWith.cachedState.Some? && q.sentWith.stateEtag == etag
  }

  ghost predicate RequestOk<S>(profile: string, s: Sys<S>, q: Request<S>) {
    && Coherent(profile, s.log, q.sentWith)
    && q.condition == (if q.sentWith.stateEtag == "" then None else Some(q.sentWith.stateEtag))
    && ReplyOk(profile, s.log, q)
    && (q.sentWith.cachedState.Some? ==> CacheOf(s, q.browser).cachedState.Some?)
  }

  ghost predicate Inv<S>(profile: string, s: Sys<S>) {
    && (forall b :: b in s.browsers ==> Coherent(profile, s.log, s.browsers[b]))
    && (forall i :: 0 <= i < |s.requests| ==> RequestOk(profile, s, s.requests[i]))
  }

  lemma EtagNonempty(profile: string, revision: nat)
    ensures StateEtag(profile, revision) != ""
  {
  }

  /** History is append-only, so what was coherent stays so. */
  lemma CoherentGrows<S>(profile: string, log: seq<S>, longer: seq<S>, c: Cache<S>)
    requires Coherent(profile, log, c) && log <= longer
    ensures Coherent(profile, longer, c)
  {
    hide StateEtag;
  }

  /** A 304 can only be the tag of the very revision the asker held. */
  lemma NotModifiedMeansCurrent<S>(profile: string, log: seq<S>, c: Cache<S>)
    requires Coherent(profile, log, c) && c.stateEtag != ""
    requires GetProfile(profile, log, Some(c.stateEtag)).NotModified?
    ensures c.cachedState == Some(RecordAt(log, |log|))
  {
    EtagIsInjective(profile, c.cachedState.value.revision, profile, |log|);
  }

  lemma ServeKeeps<S>(profile: string, s: Sys<S>, i: nat)
    requires Inv(profile, s) && i < |s.requests| && s.requests[i].reply.None?
    ensures Inv(profile, Step(profile, s, Serve(i)))
  {
    var t, q := Step(profile, s, Serve(i)), s.requests[i];
    assert RequestOk(profile, s, q);
    assert ReplyOk(profile, t.log, t.requests[i]) by {
      hide StateEtag;
      EtagNonempty(profile, |s.log|);
    }
    hide StateEtag, ReplyOk, GetProfile;
    forall b | b in t.browsers ensures Coherent(profile, t.log, t.browsers[b]) {
      CoherentGrows(profile, s.log, t.log, s.browsers[b]);
    }
    forall k | 0 <= k < |t.requests| ensures RequestOk(profile, t, t.requests[k]) {
      assert RequestOk(profile, s, s.requests[k]);
      CoherentGrows(profile, s.log, t.log, s.requests[k].sentWith);
      if k != i { ReplyGrows(profile, s.log, t.log, s.requests[k]); }
    }
  }

  lemma ReplyGrows<S>(profile: string, log: seq<S>, longer: seq<S>, q: Request<S>)
    requires ReplyOk(profile, log, q) && log <= longer
    ensures ReplyOk(profile, longer, q)
  {
    if q.reply.Some? && q.reply.value.Ok? {
      CoherentGrows(profile, log, longer, Cache(q.reply.value.etag, Some(q.reply.value.payload)));
    }
  }

  lemma DeliverKeeps<S>(profile: string, s: Sys<S>, i: nat)
    requires Inv(profile, s) && i < |s.requests| && s.requests[i].reply.Some?
    ensures Inv(profile, Step(profile, s, Deliver(i)))
  {
    hide StateEtag;
    var t, q := Step(profile, s, Deliver(i)), s.requests[i];
    assert RequestOk(profile, s, q);
    assert Coherent(profile, s.log, CacheOf(s, q.browser));
    assert Coherent(profile, s.log, t.browsers[q.browser]);
    forall k | 0 <= k < |t.requests| ensures RequestOk(profile, t, t.requests[k]) {
      assert RequestOk(profile, s, s.requests[k]);
    }
  }

  lemma StepKeeps<S>(profile: string, s: Sys<S>, a: Action<S>)
    requires Inv(profile, s)
    ensures Inv(profile, Step(profile, s, a))
  {
    match a
    case Send(b, kind) =>
      var t := Step(profile, s, a);
      forall k | 0 <= k < |t.requests| ensures RequestOk(profile, t, t.requests[k]) {
        if k < |s.requests| { assert RequestOk(profile, s, s.requests[k]); }
      }
    case Serve(i) => if i < |s.requests| && s.requests[i].reply.None? { ServeKeeps(profile, s, i); }
    case Deliver(i) => if i < |s.requests| && s.requests[i].reply.Some? { DeliverKeeps(profile, s, i); }
  }

  lemma {:induction false} ExecKeeps<S>(profile: string, initial: seq<S>, actions: seq<Action<S>>)
    ensures Inv(profile, Exec(profile, initial, actions))
  {
    if actions != [] {
      ExecKeeps(profile, initial, actions[..|actions| - 1]);
      StepKeeps(profile, Exec(profile, initial, actions[..|actions| - 1]), actions[|actions| - 1]);
    }
  }

  /** Section 13.1.2 of RFC 9110, for every run: at the moment the service answers 304, the body its
      asker had cached when asking is the stored record, and it did have one. */
  lemma NotModifiedIsHonest<S>(profile: string, initial: seq<S>, actions: seq<Action<S>>, i: nat)
    requires var s := Exec(profile, initial, actions);
             && i < |s.requests| && s.requests[i].reply.None?
             && Step(profile, s, Serve(i)).requests[i].reply.value.NotModified?
    ensures var s := Exec(profile, initial, actions);
            s.requests[i].sentWith.cachedState == Some(RecordAt(s.log, |s.log|))
  {
    ExecKeeps(profile, initial, actions);
    var s := Exec(profile, initial, actions);
    var q := s.requests[i];
    assert RequestOk(profile, s, q);
    NotModifiedMeansCurrent(profile, s.log, q.sentWith);
  }

  /** Whatever is overtaken or lost, tag and body in a browser always describe one committed revision,
      and a delivered 304 always finds a body to return. */
  lemma CachesStayCoherent<S>(profile: string, initial: seq<S>, actions: seq<Action<S>>)
    ensures var s := Exec(profile, initial, actions);
            && (forall b :: Coherent(profile, s.log, CacheOf(s, b)))
            && (forall i :: 0 <= i < |s.requests| && s.requests[i].reply.Some? && s.requests[i].reply.value.NotModified? ==>
                 CacheOf(s, s.requests[i].browser).cachedState.Some?)
  {
    ExecKeeps(profile, initial, actions);
    var s := Exec(profile, initial, actions);
    forall i | 0 <= i < |s.requests| && s.requests[i].reply.Some? && s.requests[i].reply.value.NotModified?
      ensures CacheOf(s, s.requests[i].browser).cachedState.Some?
    {
      assert RequestOk(profile, s, s.requests[i]);
    }
  }

  // ---------------------------------------------------------------- the moment of delivery

  /** The body is the record of the very revision the tag names. */
  ghost predicate Confirmed<S>(profile: string, log: seq<S>, etag: string, body: Payload<S>) {
    body.revision <= |log| && etag == StateEtag(profile, body.revision) && body == RecordAt(log, body.revision)
  }

  /** When a 304 arrives, `load` returns whatever body is cached by then. That body is the one the service
      confirmed exactly when the browser's tag is still the tag the 304 names. */
  lemma LateNotModified<S>(profile: string, initial: seq<S>, actions: seq<Action<S>>, i: nat)
    requires var s := Exec(profile, initial, actions);
             i < |s.requests| && s.requests[i].reply.Some? && s.requests[i].reply.value.NotModified?
    ensures var s := Exec(profile, initial, actions);
            var q := s.requests[i];
            var c, etag := CacheOf(s, q.browser), q.reply.value.etag;
            && q.kind.Load? && AfterLoad(c, q.reply.value) == c && c.cachedState.Some?
            && q.sentWith.cachedState.Some? && Confirmed(profile, s.log, etag, q.sentWith.cachedState.value)
            && (Confirmed(profile, s.log, etag, c.cachedState.value) <==> c.stateEtag == etag)
            && (c.stateEtag == etag <==> c.cachedState == q.sentWith.cachedState)
  {
    ExecKeeps(profile, initial, actions);
    var s := Exec(profile, initial, actions);
    var q := s.requests[i];
    assert RequestOk(profile, s, q);
    var c := CacheOf(s, q.browser);
    assert Coherent(profile, s.log, c);
    EtagNonempty(profile, c.cachedState.value.revision);
    hide Exec, StateEtag;
    var now, before := c.cachedState.value.revision, q.sentWith.cachedState.value.revision;
    if StateEtag(profile, now) == StateEtag(profile, before) { EtagIsInjective(profile, now, profile, before); }
  }

  lemma ExecStep<S>(profile: string, initial: seq<S>, actions: seq<Action<S>>, a: Action<S>)
    ensures Exec(profile, initial, actions + [a]) == Step(profile, Exec(profile, initial, actions), a)
  {
    hide Step;
    assert (actions + [a])[..|actions|] == actions;
  }

  /** What the service answers to a load at revision 1, and what a browser makes of it. */
  function AtOne<S>(profile: string, first: S): Cache<S> {
    Cache(StateEtag(profile, 1), Some(Payload(1, Some(first))))
  }

  function AtTwo<S>(profile: string, next: S): Cache<S> {
    Cache(StateEtag(profile, 2), Some(Payload(2, Some(next))))
  }

  function Answer<S>(c: Cache<S>): Reply<S>
    requires c.cachedState.Some?
  {
    Ok(c.cachedState.value, c.stateEtag)
  }

  /** Two loads are sent and served; only the second answer has arrived. */
  function OneLoaded<S>(profile: string, first: S): Sys<S> {
    var q := Request(0, Load, None, Empty(), Some(Answer(AtOne(profile, first))));
    Sys([first], map[0 := AtOne(profile, first)], [q, q])
  }

  /** A save has then been answered, and a third load is on its way under its tag. */
  function SavedAndAsking<S>(profile: string, first: S, next: S): Sys<S> {
    var one, two := AtOne(profile, first), AtTwo(profile, next);
    Sys([first, next], map[0 := two], OneLoaded(profile, first).requests +
        [Request(0, Save(1, next), Some(one.stateEtag), one, Some(Answer(two))),
         Request(0, Load, Some(two.stateEtag), two, None)])
  }

  lemma LoadsTwice<S>(profile: string, first: S) returns (actions: seq<Action<S>>)
    ensures Exec(profile, [first], actions) == OneLoaded(profile, first)
  {
    hide StateEtag;
    var q := Request(0, Load, None, Empty(), None);
    actions := [];
    assert Exec(profile, [first], actions) == Sys([first], map[], []);
    hide Exec;
    ExecStep(profile, [first], actions, Send(0, Load));
    actions := actions + [Send(0, Load)];
    ExecStep(profile, [first], actions, Send(0, Load));
    actions := actions + [Send(0, Load)];
    assert Exec(profile, [first], actions) == Sys([first], map[], [q, q]);
    ExecStep(profile, [first], actions, Serve(0));
    actions := actions + [Serve(0)];
    ExecStep(profile, [first], actions, Serve(1));
    actions := actions + [Serve(1)];
    ExecStep(profile, [first], actions, Deliver(1));
    actions := actions + [Deliver(1)];
  }

  lemma SavesAndAsks<S>(profile: string, first: S, next: S) returns (actions: seq<Action<S>>)
    ensures Exec(profile, [first], actions) == SavedAndAsking(profile, first, next)
  {
    actions := LoadsTwice(profile, first);
    EtagNonempty(profile, 1);
    EtagNonempty(profile, 2);
    hide StateEtag, Exec;
    ExecStep(profile, [first], actions, Send(0, Save(1, next)));
    actions := actions + [Send(0, Save(1, next))];
    ExecStep(profile, [first], actions, Serve(2));
    actions := actions + [Serve(2)];
    assert Exec(profile, [first], actions).log == [first, next];
    ExecStep(profile, [first], actions, Deliver(2));
    actions := actions + [Deliver(2)];
    ExecStep(profile, [first], actions, Send(0, Load));
    actions := actions + [Send(0, Load)];
  }

  /** The failing run, each answer delivered at most once: the first load arrives after the third was answered
      304, and the 304 then makes `load` return revision 1 although it confirmed revision 2, still the stored one. */
  lemma OvertakenLoadIsStale<S>(profile: string, first: S, next: S) returns (actions: seq<Action<S>>, i: nat)
    ensures var s := Exec(profile, [first], actions);
            && |s.log| == 2
            && i < |s.requests| && s.requests[i].reply == Some(NotModified(StateEtag(profile, 2)))
            && AfterLoad(CacheOf(s, s.requests[i].browser), s.requests[i].reply.value).cachedState == Some(RecordAt(s.log, 1))
  {
    actions := SavesAndAsks(profile, first, next);
    i := 3;
    hide StateEtag, Exec;
    ExecStep(profile, [first], actions, Serve(3));
    actions := actions + [Serve(3)];
    ExecStep(profile, [first], actions, Deliver(0));
    actions := actions + [Deliver(0)];
  }
}
