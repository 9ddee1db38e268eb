/**
  The fixed-window limiter of internal/httpapi/limiter.go: its map with purging and a size limit,
  the promise it makes per key, and the simple limiter it is indistinguishable from.
*/
module RateLimiter {
  import opened Common

  datatype LimitState = LimitState(count: nat, reset: Time)

  datatype Config = Config(limit: nat, window: Time, maxEntries: nat) {
    predicate Valid() {
      window > 0
    }
  }

  /** retryAfter is zero when allowed. */
  datatype LimitResult = LimitResult(allowed: bool, remaining: int, reset: Time, retryAfter: Time)

  type States = map<ID, LimitState>

  /** Take for a key that has or gets room. */
  function Window(states: States, key: ID, now: Time, cfg: Config): LimitState {
    if key in states && now < states[key].reset then states[key] else LimitState(0, now + cfg.window)
  }

  function Count(states: States, key: ID, now: Time, cfg: Config): (States, LimitResult) {
    var state := Window(states, key, now, cfg);
    if state.count >= cfg.limit then
      (states[key := state], LimitResult(false, 0, state.reset, state.reset - now))
    else
      (states[key := state.(count := state.count + 1)],
       LimitResult(true, cfg.limit - (state.count + 1), state.reset, 0))
  }

  function Purged(states: States, now: Time): States {
    map k | k in states && now < states[k].reset :: states[k]
  }

  /** No room for a new key, even after purging. */
  predicate Full(states: States, key: ID, now: Time, cfg: Config) {
    key !in states && |states| >= cfg.maxEntries && |Purged(states, now)| >= cfg.maxEntries
  }

  /** The entries whose window still runs. */
  function Running(states: States, now: Time): set<ID> {
    set k | k in states && now < states[k].reset
  }

  /** A key without an entry, when maxEntries others are running. */
  predicate NoRoom(states: States, key: ID, now: Time, cfg: Config) {
    key !in states && |Running(states, now)| >= cfg.maxEntries
  }

  /** The whole limit was granted to a key in its running window. */
  predicate Spent(states: States, key: ID, now: Time, cfg: Config) {
    cfg.limit <= if key in states && now < states[key].reset then states[key].count else 0
  }

  lemma FullIsNoRoom(states: States, key: ID, now: Time, cfg: Config)
    ensures Full(states, key, now, cfg) <==> NoRoom(states, key, now, cfg)
  {
    assert Purged(states, now).Keys == Running(states, now);
    assert |Purged(states, now)| == |Purged(states, now).Keys|;
    assert |states| == |states.Keys|;
    SubsetSize(Running(states, now), states.Keys);
  }

  function Roomy(states: States, key: ID, now: Time, cfg: Config): States {
    if key !in states && |states| >= cfg.maxEntries then Purged(states, now) else states
  }

  function Answer(states: States, key: ID, now: Time, cfg: Config): (States, LimitResult) {
    var roomy := Roomy(states, key, now, cfg);
    if Full(states, key, now, cfg) then (roomy, LimitResult(false, 0, now + cfg.window, cfg.window))
    else Count(roomy, key, now, cfg)
  }

  /** A key is refused exactly when its window is spent or there is no room for it. */
  lemma RefusedIff(states: States, key: ID, now: Time, cfg: Config)
    ensures !Answer(states, key, now, cfg).1.allowed <==> Spent(states, key, now, cfg) || NoRoom(states, key, now, cfg)
  {
    FullIsNoRoom(states, key, now, cfg);
    hide Full, NoRoom;
  }

  /**
    What a call leaves: an entry of its window with one more grant, if it is allowed, and every other
    running entry as it was. What it answers is read off that entry; for want of room it says to wait a window.
  */
  lemma AnswerOutcome(states: States, key: ID, now: Time, cfg: Config, other: ID)
    ensures var (states', r) := Answer(states, key, now, cfg);
            var running := key in states && now < states[key].reset;
            && (if NoRoom(states, key, now, cfg) then
                  key !in states' && r == LimitResult(false, 0, now + cfg.window, cfg.window)
                else
                  && key in states'
                  && states'[key].reset == (if running then states[key].reset else now + cfg.window)
                  && states'[key].count == (if running then states[key].count else 0) + (if r.allowed then 1 else 0)
                  && r.reset == states'[key].reset
                  && r.remaining == (if r.allowed then cfg.limit - states'[key].count else 0)
                  && r.retryAfter == (if r.allowed then 0 else r.reset - now))
            && (other != key && other in states && now < states[other].reset ==>
                  other in states' && states'[other] == states[other])
            && (other != key && other in states' ==> other in states && states'[other] == states[other])
  {
    FullIsNoRoom(states, key, now, cfg);
    hide NoRoom;
  }

  // ---------- Runs ----------

  datatype Op = Take(key: ID, now: Time) | Reset(key: ID)

  function After(ops: seq<Op>, cfg: Config): States {
    if ops == [] then map[]
    else
      var states := After(ops[..|ops| - 1], cfg);
      match ops[|ops| - 1]
      case Take(key, now) => Answer(states, key, now, cfg).0
      case Reset(key) => states - {key}
  }

  /** The clock does not run backwards and has not passed t. */
  predicate Ordered(ops: seq<Op>, t: Time)
    decreases |ops|
  {
    ops == [] ||
    var op := ops[|ops| - 1];
    if op.Take? then op.now <= t && Ordered(ops[..|ops| - 1], op.now) else Ordered(ops[..|ops| - 1], t)
  }

  predicate Allows(ops: seq<Op>, op: Op, cfg: Config) {
    op.Take? && Answer(After(ops, cfg), op.key, op.now, cfg).1.allowed
  }

  /** How many times a key was allowed from one time until another. */
  function Granted(ops: seq<Op>, key: ID, from: Time, until: Time, cfg: Config): nat
    decreases |ops|
  {
    if ops == [] then 0
    else
      var init, op := ops[..|ops| - 1], ops[|ops| - 1];
      Granted(init, key, from, until, cfg) +
      if Allows(init, op, cfg) && op.key == key && from <= op.now <= until then 1 else 0
  }

  // ---------- The map stays small ----------

  lemma {:induction false} NeverOverCapacity(ops: seq<Op>, cfg: Config)
    ensures |After(ops, cfg)| <= cfg.maxEntries
    decreases |ops|
  {
    if ops != [] {
      var init, op := ops[..|ops| - 1], ops[|ops| - 1];
      NeverOverCapacity(init, cfg);
      var states := After(init, cfg);
      match op
      case Take(key, now) =>
        FewerKeys(Purged(states, now), states);
        InsertedKey(Roomy(states, key, now, cfg), key, Window(Roomy(states, key, now, cfg), key, now, cfg));
        InsertedKey(Roomy(states, key, now, cfg), key,
                    LimitState(Window(Roomy(states, key, now, cfg), key, now, cfg).count + 1,
                               Window(Roomy(states, key, now, cfg), key, now, cfg).reset));
      case Reset(key) =>
        FewerKeys(states - {key}, states);
    }
  }

  lemma InsertedKey(states: States, key: ID, state: LimitState)
    ensures |states[key := state]| == if key in states then |states| else |states| + 1
  {
    assert states[key := state].Keys == states.Keys + {key};
    assert |states.Keys| == |states|;
    assert |states[key := state].Keys| == |states[key := state]|;
    if key in states {
      assert states.Keys + {key} == states.Keys;
    }
  }

  lemma FewerKeys(fewer: States, states: States)
    requires fewer.Keys <= states.Keys
    ensures |fewer| <= |states|
  {
    assert |fewer.Keys| == |fewer| && |states.Keys| == |states|;
    assert states.Keys == fewer.Keys + (states.Keys - fewer.Keys);
  }

  // ---------- At most twice the limit in a window's length ----------

  /** What windows that begin no earlier than start can still allow from s until s + window. */
  function NewWindows(start: Time, s: Time, cfg: Config): nat {
    if start > s + cfg.window then 0 else if start > s then cfg.limit else 2 * cfg.limit
  }

  /** What a key's state at time t can still allow from s until s + window. */
  function StillPossible(states: States, key: ID, t: Time, s: Time, cfg: Config): int {
    if key in states && states[key].reset > t then
      NewWindows(states[key].reset, s, cfg) +
      if s < states[key].reset <= s + 2 * cfg.window then cfg.limit - states[key].count else 0
    else NewWindows(t, s, cfg)
  }

  /** Counts never pass the limit, and no window ends more than its length from now. */
  predicate Sane(states: States, key: ID, t: Time, cfg: Config) {
    key in states ==> states[key].count <= cfg.limit && states[key].reset <= t + cfg.window
  }

  lemma TakeSpends(states: States, key: ID, t: Time, now: Time, s: Time, cfg: Config)
    requires cfg.Valid() && t <= now && Sane(states, key, t, cfg)
    ensures var (states', result) := Answer(states, key, now, cfg);
            StillPossible(states', key, now, s, cfg) +
            (if result.allowed && s <= now <= s + cfg.window then 1 else 0)
            <= StillPossible(states, key, t, s, cfg)
  {
  }

  lemma TakeSpares(states: States, other: ID, key: ID, t: Time, now: Time, s: Time, cfg: Config)
    requires cfg.Valid() && t <= now && other != key && Sane(states, key, t, cfg)
    ensures var states' := Answer(states, other, now, cfg).0;
            StillPossible(states', key, now, s, cfg) <= StillPossible(states, key, t, s, cfg)
  {
  }

  lemma {:induction false} AlwaysSane(ops: seq<Op>, key: ID, t: Time, cfg: Config)
    requires cfg.Valid() && Ordered(ops, t)
    ensures Sane(After(ops, cfg), key, t, cfg)
    decreases |ops|
  {
    if ops != [] {
      var init, op := ops[..|ops| - 1], ops[|ops| - 1];
      AlwaysSane(init, key, if op.Take? then op.now else t, cfg);
    }
  }

  lemma {:induction false} GrantedPlusPossible(ops: seq<Op>, key: ID, t: Time, s: Time, cfg: Config)
    requires cfg.Valid() && Ordered(ops, t) && Op.Reset(key) !in ops
    ensures Granted(ops, key, s, s + cfg.window, cfg) + StillPossible(After(ops, cfg), key, t, s, cfg) <= 2 * cfg.limit
    decreases |ops|
  {
    hide Answer, StillPossible;
    if ops == [] {
      Empty(key, t, s, cfg);
    } else {
      var init, op := ops[..|ops| - 1], ops[|ops| - 1];
      var states := After(init, cfg);
      match op
      case Take(other, now) =>
        GrantedPlusPossible(init, key, now, s, cfg);
        AlwaysSane(init, key, now, cfg);
        AlwaysSane(ops, key, now, cfg);
        if other == key {
          TakeSpends(states, key, now, now, s, cfg);
        } else {
          TakeSpares(states, other, key, now, now, s, cfg);
        }
        LaterIsLess(After(ops, cfg), key, now, t, s, cfg);
      case Reset(other) =>
        GrantedPlusPossible(init, key, t, s, cfg);
        OtherKey(states, other, key, t, s, cfg);
    }
  }

  lemma Empty(key: ID, t: Time, s: Time, cfg: Config)
    ensures StillPossible(map[], key, t, s, cfg) <= 2 * cfg.limit
  {
  }

  lemma OtherKey(states: States, other: ID, key: ID, t: Time, s: Time, cfg: Config)
    requires other != key
    ensures StillPossible(states - {other}, key, t, s, cfg) == StillPossible(states, key, t, s, cfg)
  {
  }

  lemma LaterIsLess(states: States, key: ID, now: Time, t: Time, s: Time, cfg: Config)
    requires cfg.Valid() && now <= t && Sane(states, key, now, cfg)
    ensures StillPossible(states, key, t, s, cfg) <= StillPossible(states, key, now, s, cfg)
  {
  }

  lemma PossibleNotNegative(states: States, key: ID, t: Time, s: Time, cfg: Config)
    requires Sane(states, key, t, cfg)
    ensures StillPossible(states, key, t, s, cfg) >= 0
  {
  }

  /** A key that is not reset is allowed at most 2 * limit times in any interval of one window's length. */
  lemma AtMostTwiceTheLimit(ops: seq<Op>, key: ID, t: Time, s: Time, cfg: Config)
    requires cfg.Valid() && Ordered(ops, t) && Op.Reset(key) !in ops
    ensures Granted(ops, key, s, s + cfg.window, cfg) <= 2 * cfg.limit
  {
    hide StillPossible, Granted, After;
    GrantedPlusPossible(ops, key, t, s, cfg);
    AlwaysSane(ops, key, t, cfg);
    PossibleNotNegative(After(ops, cfg), key, t, s, cfg);
  }

  // ---------- Never refused early ----------

  /** What the map knows about a key is what was granted to it. */
  predicate Remembers(ops: seq<Op>, key: ID, t: Time, end: Time, cfg: Config) {
    var states := After(ops, cfg);
    if key in states then
      && Granted(ops, key, states[key].reset - cfg.window, end, cfg) == states[key].count
      && Granted(ops, key, states[key].reset, end, cfg) == 0
    else Granted(ops, key, t, end, cfg) == 0
  }

  lemma {:induction false} LessLater(ops: seq<Op>, key: ID, from: Time, from': Time, end: Time, cfg: Config)
    requires from <= from'
    ensures Granted(ops, key, from', end, cfg) <= Granted(ops, key, from, end, cfg)
    decreases |ops|
  {
    if ops != [] {
      LessLater(ops[..|ops| - 1], key, from, from', end, cfg);
    }
  }

  lemma OneTake(init: seq<Op>, other: ID, now: Time, key: ID, from: Time, end: Time, cfg: Config)
    ensures var ops := init + [Op.Take(other, now)];
            && After(ops, cfg) == Answer(After(init, cfg), other, now, cfg).0
            && Granted(ops, key, from, end, cfg) == Granted(init, key, from, end, cfg) +
               if other == key && Answer(After(init, cfg), key, now, cfg).1.allowed && from <= now <= end then 1 else 0
  {
    hide Answer;
    assert (init + [Op.Take(other, now)])[..|init|] == init;
  }

  lemma TakeRemembers(init: seq<Op>, other: ID, now: Time, key: ID, end: Time, cfg: Config)
    requires cfg.Valid() && Ordered(init, now) && now <= end && Remembers(init, key, now, end, cfg)
    ensures Remembers(init + [Op.Take(other, now)], key, now, end, cfg)
  {
    hide Answer, After, Granted, Ordered;
    var states := After(init, cfg);
    AlwaysSane(init, key, now, cfg);
    AnswerOutcome(states, other, now, cfg, key);
    OneTake(init, other, now, key, now, end, cfg);
    OneTake(init, other, now, key, now + cfg.window, end, cfg);
    LessLater(init, key, now, now + cfg.window, end, cfg);
    if key in states {
      OneTake(init, other, now, key, states[key].reset, end, cfg);
      OneTake(init, other, now, key, states[key].reset - cfg.window, end, cfg);
      if states[key].reset <= now {
        LessLater(init, key, states[key].reset, now, end, cfg);
      }
    }
  }

  lemma ResetRemembers(init: seq<Op>, other: ID, key: ID, t: Time, end: Time, cfg: Config)
    requires other != key && Remembers(init, key, t, end, cfg)
    ensures Remembers(init + [Op.Reset(other)], key, t, end, cfg)
  {
    hide Answer;
    assert (init + [Op.Reset(other)])[..|init|] == init;
  }

  lemma LaterRemembers(ops: seq<Op>, key: ID, now: Time, t: Time, end: Time, cfg: Config)
    requires now <= t && Remembers(ops, key, now, end, cfg)
    ensures Remembers(ops, key, t, end, cfg)
  {
    hide After, Granted;
    LessLater(ops, key, now, t, end, cfg);
  }

  lemma {:induction false} AlwaysRemembers(ops: seq<Op>, key: ID, t: Time, end: Time, cfg: Config)
    requires cfg.Valid() && Ordered(ops, t) && t <= end && Op.Reset(key) !in ops
    ensures Remembers(ops, key, t, end, cfg)
    decreases |ops|
  {
    if ops != [] {
      hide Remembers;
      var init, op := ops[..|ops| - 1], ops[|ops| - 1];
      assert ops == init + [op];
      match op
      case Take(other, now) =>
        AlwaysRemembers(init, key, now, end, cfg);
        TakeRemembers(init, other, now, key, end, cfg);
        LaterRemembers(ops, key, now, t, end, cfg);
      case Reset(other) =>
        AlwaysRemembers(init, key, t, end, cfg);
        ResetRemembers(init, other, key, t, end, cfg);
    }
  }

  /**
    A key is refused only for lack of room, or once the whole limit has been granted to it within
    less than one window.
  */
  lemma RefusedOnlyAtTheLimit(ops: seq<Op>, key: ID, now: Time, cfg: Config)
    requires cfg.Valid() && Ordered(ops, now) && Op.Reset(key) !in ops
    requires !Answer(After(ops, cfg), key, now, cfg).1.allowed && !NoRoom(After(ops, cfg), key, now, cfg)
    ensures Granted(ops, key, now - cfg.window + 1, now, cfg) >= cfg.limit
  {
    hide Answer, After, Granted, Ordered, NoRoom;
    var states := After(ops, cfg);
    RefusedIff(states, key, now, cfg);
    if key in states && now < states[key].reset {
      AlwaysSane(ops, key, now, cfg);
      AlwaysRemembers(ops, key, now, now, cfg);
      LessLater(ops, key, now - cfg.window + 1, states[key].reset - cfg.window, now, cfg);
    }
  }

  /** Every entry's window was opened by a take. */
  lemma {:induction false} WindowsWereOpened(ops: seq<Op>, k: ID, cfg: Config)
    requires k in After(ops, cfg)
    ensures Op.Take(k, After(ops, cfg)[k].reset - cfg.window) in ops
    decreases |ops|
  {
    var init, op := ops[..|ops| - 1], ops[|ops| - 1];
    assert ops == init + [op];
    if k in After(init, cfg) && After(ops, cfg)[k].reset == After(init, cfg)[k].reset {
      WindowsWereOpened(init, k, cfg);
    }
  }

  /**
    A key that was granted less than the limit within one window is refused only when at least
    maxEntries other keys were taken within the last window.
  */
  lemma RefusedEarlyOnlyInACrowd(ops: seq<Op>, key: ID, now: Time, cfg: Config) returns (others: set<ID>)
    requires cfg.Valid() && Ordered(ops, now) && Op.Reset(key) !in ops
    requires !Answer(After(ops, cfg), key, now, cfg).1.allowed
    requires Granted(ops, key, now - cfg.window + 1, now, cfg) < cfg.limit
    ensures |others| >= cfg.maxEntries && key !in others
    ensures forall k | k in others :: exists t :: now - cfg.window < t <= now && Op.Take(k, t) in ops
  {
    if !NoRoom(After(ops, cfg), key, now, cfg) {
      RefusedOnlyAtTheLimit(ops, key, now, cfg);
    }
    hide Answer, Granted;
    others := Running(After(ops, cfg), now);
    forall k | k in others
      ensures exists t :: now - cfg.window < t <= now && Op.Take(k, t) in ops
    {
      WindowsWereOpened(ops, k, cfg);
      AlwaysSane(ops, k, now, cfg);
      assert Op.Take(k, After(ops, cfg)[k].reset - cfg.window) in ops;
    }
  }

  /** The first call is allowed, unless nothing ever is. */
  lemma FirstTakeIsAllowed(key: ID, now: Time, cfg: Config)
    requires cfg.limit > 0 && cfg.maxEntries > 0
    ensures Answer(After([], cfg), key, now, cfg).1.allowed
  {
    RefusedIff(After([], cfg), key, now, cfg);
    assert Running(After([], cfg), now) == {};
  }

  /** A refused key is allowed again exactly from retryAfter on, if there is room and anything is allowed at all. */
  lemma RetryAfterIsExact(states: States, key: ID, now: Time, later: Time, cfg: Config)
    requires cfg.Valid() && cfg.limit > 0 && now <= later
    requires !Answer(states, key, now, cfg).1.allowed && !NoRoom(states, key, now, cfg)
    ensures var (states', refused) := Answer(states, key, now, cfg);
            && refused.retryAfter > 0 && refused.reset == now + refused.retryAfter
            && (Answer(states', key, later, cfg).1.allowed <==> later >= now + refused.retryAfter)
  {
  }

  /** So many times in a row a key is allowed at one moment. */
  function Burst(states: States, key: ID, now: Time, cfg: Config, tries: nat): nat
    decreases tries
  {
    if tries == 0 || !Answer(states, key, now, cfg).1.allowed then 0
    else 1 + Burst(Answer(states, key, now, cfg).0, key, now, cfg, tries - 1)
  }

  /** What is reported as remaining is exactly what a burst then gets before the window ends. */
  lemma {:induction false} RemainingIsExact(states: States, key: ID, now: Time, later: Time, cfg: Config, tries: nat)
    requires cfg.Valid() && Answer(states, key, now, cfg).1.allowed
    requires now <= later < Answer(states, key, now, cfg).1.reset
    ensures var (states', result) := Answer(states, key, now, cfg);
            && result.remaining >= 0
            && Burst(states', key, later, cfg, tries) == if tries < result.remaining then tries else result.remaining
    decreases tries
  {
    var (states', result) := Answer(states, key, now, cfg);
    if tries > 0 && result.remaining > 0 {
      RemainingIsExact(states', key, later, later, cfg, tries - 1);
    }
  }

  // ---------- The limiter that never forgets ----------

  /** The same limiter with no size limit and no purging. */
  function Unbounded(ops: seq<Op>, cfg: Config): States
    decreases |ops|
  {
    if ops == [] then map[]
    else
      var states := Unbounded(ops[..|ops| - 1], cfg);
      match ops[|ops| - 1]
      case Take(key, now) => Count(states, key, now, cfg).0
      case Reset(key) => states - {key}
  }

  /** The calls that were not refused for lack of room. */
  function Served(ops: seq<Op>, cfg: Config): seq<Op> {
    if ops == [] then []
    else
      var init, op := ops[..|ops| - 1], ops[|ops| - 1];
      if op.Take? && NoRoom(After(init, cfg), op.key, op.now, cfg) then Served(init, cfg) else Served(init, cfg) + [op]
  }

  /** The small map holds the entries of the large one, but may lack expired ones. */
  ghost predicate Forgets(small: States, large: States, t: Time) {
    && (forall k | k in small :: k in large && large[k] == small[k])
    && forall k | k in large && k !in small :: large[k].reset <= t
  }

  lemma TakeMatches(small: States, large: States, key: ID, t: Time, now: Time, cfg: Config)
    requires Forgets(small, large, t) && t <= now && cfg.Valid()
    ensures if NoRoom(small, key, now, cfg) then Forgets(Answer(small, key, now, cfg).0, large, now)
            else
              && Answer(small, key, now, cfg).1 == Count(large, key, now, cfg).1
              && Forgets(Answer(small, key, now, cfg).0, Count(large, key, now, cfg).0, now)
  {
    FullIsNoRoom(small, key, now, cfg);
    hide NoRoom;
  }

  lemma {:induction false} AlwaysForgets(ops: seq<Op>, t: Time, cfg: Config)
    requires cfg.Valid() && Ordered(ops, t)
    ensures Forgets(After(ops, cfg), Unbounded(Served(ops, cfg), cfg), t)
    decreases |ops|
  {
    hide Count, Purged, Full, Roomy, Answer;
    if ops != [] {
      var init, op := ops[..|ops| - 1], ops[|ops| - 1];
      assert (Served(init, cfg) + [op])[..|Served(init, cfg)|] == Served(init, cfg);
      match op
      case Take(key, now) =>
        AlwaysForgets(init, now, cfg);
        TakeMatches(After(init, cfg), Unbounded(Served(init, cfg), cfg), key, now, now, cfg);
      case Reset(key) =>
        AlwaysForgets(init, t, cfg);
    }
  }

  /**
    Purging cannot be observed: every call is either refused for lack of room, or answered just as a
    limiter with no size limit that never purges answers it after the calls that were not so refused.
  */
  lemma PurgingIsUnobservable(ops: seq<Op>, key: ID, now: Time, cfg: Config)
    requires cfg.Valid() && Ordered(ops, now)
    ensures var result := Answer(After(ops, cfg), key, now, cfg).1;
            if NoRoom(After(ops, cfg), key, now, cfg) then !result.allowed
            else result == Count(Unbounded(Served(ops, cfg), cfg), key, now, cfg).1
  {
    hide Unbounded, Served, After;
    AlwaysForgets(ops, now, cfg);
    TakeMatches(After(ops, cfg), Unbounded(Served(ops, cfg), cfg), key, now, now, cfg);
  }

  // ---------- The limiter ----------

  class FixedWindowLimiter {
    const cfg: Config
    var states: States

    constructor (limit: nat, window: Time)
      ensures cfg == Config(limit, window, 100_000) && states == After([], cfg)
    {
      cfg := Config(limit, window, 100_000);
      states := map[];
    }

    method Purge(now: Time)
      modifies this`states
      ensures states == Purged(old(states), now)
    {
      var pending := states.Keys;
      while pending != {}
        invariant pending <= states.Keys <= old(states).Keys
        invariant forall k | k in old(states) :: k in states <==> k in pending || now < old(states)[k].reset
        invariant forall k | k in states :: states[k] == old(states)[k]
        decreases pending
      {
        var k :| k in pending;
        if now >= states[k].reset {
          states := states - {k};
        }
        pending := pending - {k};
      }
    }

    method Take(key: ID, now: Time) returns (result: LimitResult)
      modifies this`states
      ensures (states, result) == Answer(old(states), key, now, cfg)
    {
      var known := key in states;
      var state := if known then states[key] else LimitState(0, now);
      if !known && |states| >= cfg.maxEntries {
        Purge(now);
        if |states| >= cfg.maxEntries {
          return LimitResult(false, 0, now + cfg.window, cfg.window);
        }
      }
      if !known || now >= state.reset {
        state := LimitState(0, now + cfg.window);
      }
      if state.count >= cfg.limit {
        states := states[key := state];
        return LimitResult(false, 0, state.reset, state.reset - now);
      }
      state := state.(count := state.count + 1);
      states := states[key := state];
      return LimitResult(true, cfg.limit - state.count, state.reset, 0);
    }

    method Reset(key: ID)
      modifies this`states
      ensures states == old(states) - {key}
    {
      states := states - {key};
    }
  }
}
