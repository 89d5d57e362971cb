/** TelegramBotUser: a known user of the bot and the lifecycle of its context. The wall clock
    (`moment()`) is an explicit parameter `now`, in milliseconds. */
module BotUsers {
  import opened Common
  import opened UserContexts

  /** Milliseconds in one minute. */
  const MsPerMinute: int := 60000

  /** The TTL `setContext` uses when the caller omits it (TelegramBotUser.js:44). */
  const DefaultTTL: int := 5

  /** The three context fields of a user, `context`, `contextCreated` and `contextTTL`, as a value. */
  datatype ContextState = ContextState(context: Option<Context>, created: Option<int>, ttl: Option<int>)

  /** All three fields null: a new user, or a user whose context was deleted. */
  const NoContext: ContextState := ContextState(None, None, None)

  /** The user invariant: a present context always has its creation time and TTL, so the
      expiry test never dereferences null. */
  predicate Consistent(s: ContextState) {
    s.context.Some? ==> s.created.Some? && s.ttl.Some?
  }

  /** Integer division truncated toward zero, as moment's `diff` rounds its result.
      Dafny's own `/` is Euclidean and differs for negative `n`. */
  function TruncDiv(n: int, d: int): (q: int)
    requires d > 0
  {
    if n >= 0 then n / d else -((-n) / d)
  }

  /** `moment(from).diff(to, 'minutes')`: whole minutes from `to` to `from`, truncated toward zero. */
  function MinutesDiff(from: int, to: int): int {
    TruncDiv(from - to, MsPerMinute)
  }

  /** The expiry test of `verifyContext`, as written: it computes `contextCreated.diff(now)`,
      that is created minus now, the reverse of the elapsed time. */
  predicate Expired(s: ContextState, now: int)
    requires Consistent(s)
  {
    s.context.Some? && MinutesDiff(s.created.value, now) > s.ttl.value
  }

  /** The state after `verifyContext()` at time `now`. */
  function Verified(s: ContextState, now: int): (r: ContextState)
    requires Consistent(s)
    ensures Consistent(r)
    ensures r == s || r == NoContext
    ensures r == NoContext <==> s == NoContext || Expired(s, now)
  {
    if Expired(s, now) then NoContext else s
  }

  /** The state after `setContext(context, ttl)` at time `now`; an omitted TTL is 5 minutes. */
  function WithContext(context: Option<Context>, ttl: Option<int>, now: int): (r: ContextState)
    ensures Consistent(r)
    ensures r.context == context && r.created == Some(now)
    ensures r.ttl == Some(if ttl.Some? then ttl.value else DefaultTTL)
  {
    ContextState(context, Some(now), Some(ttl.GetOr(DefaultTTL)))
  }

  /** What `getContext()` returns at time `now`. */
  function ContextAt(s: ContextState, now: int): Option<Context>
    requires Consistent(s)
  {
    Verified(s, now).context
  }

  /** What `hasContext()` returns at time `now`. */
  predicate HasContextAt(s: ContextState, now: int)
    requires Consistent(s)
  {
    Verified(s, now).context.Some?
  }

  /** A user known to the bot. The chat id and the application data never change after construction. */
  class User {
    const telegramChatID: ChatId
    const appData: Option<Ref>
    var context: Option<Context>
    var contextCreated: Option<int>
    var contextTTL: Option<int>

    function State(): ContextState
      reads this
    {
      ContextState(context, contextCreated, contextTTL)
    }

    ghost predicate Valid()
      reads this
    {
      Consistent(State())
    }

    /** A new user has no context. */
    constructor(telegramChatID: ChatId, appData: Option<Ref> := None)
      ensures Valid() && State() == NoContext
      ensures this.telegramChatID == telegramChatID && this.appData == appData
    {
      this.telegramChatID := telegramChatID;
      this.appData := appData;
      context, contextCreated, contextTTL := None, None, None;
    }

    /** Verifies the context at `now` and reports whether one is left. */
    method HasContext(now: int) returns (b: bool)
      requires Valid()
      modifies this
      ensures Valid() && State() == Verified(old(State()), now)
      ensures b == HasContextAt(old(State()), now)
    {
      VerifyContext(now);
      b := context != None;
    }

    /** Deletes the context when it is present and its minute difference exceeds its TTL;
        otherwise changes nothing. */
    method VerifyContext(now: int)
      requires Valid()
      modifies this
      ensures Valid() && State() == Verified(old(State()), now)
    {
      // As written the difference is created - now; see NeverExpiresAsWritten.
      if context != None && MinutesDiff(contextCreated.value, now) > contextTTL.value {
        DeleteContext();
      }
    }

    /** Replaces the context outright (no merge), stamping it with `now`. */
    method SetContext(context: Option<Context>, now: int, ttl: Option<int> := None)
      requires Valid()
      modifies this
      ensures Valid() && State() == WithContext(context, ttl, now)
    {
      this.context := context;
      contextCreated := Some(now);
      contextTTL := Some(ttl.GetOr(DefaultTTL));
    }

    /** Verifies the context at `now` and returns what is left. */
    method GetContext(now: int) returns (c: Option<Context>)
      requires Valid()
      modifies this
      ensures Valid() && State() == Verified(old(State()), now)
      ensures c == ContextAt(old(State()), now)
    {
      VerifyContext(now);
      c := context;
    }

    /** Clears all three context fields together. */
    method DeleteContext()
      modifies this
      ensures Valid() && State() == NoContext
    {
      context, contextCreated, contextTTL := None, None, None;
    }
  }

  /** Truncating division never moves away from zero and stays within one divisor of the quotient. */
  lemma TruncDivBounds(n: int, d: int)
    requires d > 0
    ensures n >= 0 ==> 0 <= TruncDiv(n, d) && TruncDiv(n, d) * d <= n < TruncDiv(n, d) * d + d
    ensures n < 0 ==> TruncDiv(n, d) <= 0 && TruncDiv(n, d) * d - d < n <= TruncDiv(n, d) * d
  {
    var m := if n >= 0 then n else -n;
    var q, r := m / d, m % d;
    assert m == q * d + r && 0 <= r < d;
    assert 0 <= q by {
      if q < 0 { MulMonotone(q, -1, d); }
    }
    if n < 0 {
      assert TruncDiv(n, d) == -q;
      assert TruncDiv(n, d) * d == -(q * d);
    }
  }

  /** Multiplying by a non-negative factor keeps the order. */
  lemma MulMonotone(a: int, b: int, m: int)
    requires a <= b && m >= 0
    ensures a * m <= b * m
  {
    assert b * m - a * m == (b - a) * m;
  }

  /** `hasContext()` and `getContext()` agree at the same instant. */
  lemma HasContextIffGetContext(s: ContextState, now: int)
    requires Consistent(s)
    ensures HasContextAt(s, now) <==> ContextAt(s, now).Some?
    ensures HasContextAt(s, now) ==> ContextAt(s, now) == s.context
  {
  }

  /** Verifying twice at the same instant is the same as verifying once. */
  lemma VerifyIdempotent(s: ContextState, now: int)
    requires Consistent(s)
    ensures Verified(Verified(s, now), now) == Verified(s, now)
  {
  }

  /** As written, a context created at or before `now` with a non-negative TTL is never deleted:
      created - now is not positive, so its whole minutes are not positive either. */
  lemma NeverExpiresAsWritten(s: ContextState, now: int)
    requires Consistent(s) && s.context.Some?
    requires s.created.value <= now && s.ttl.value >= 0
    ensures !Expired(s, now) && Verified(s, now) == s
    ensures HasContextAt(s, now) && ContextAt(s, now) == s.context
  {
    TruncDivBounds(s.created.value - now, MsPerMinute);
  }

  /** As written, with a non-negative TTL `t`, a context is deleted exactly when it was created at
      least `t + 1` whole minutes AFTER `now` (a clock that went backwards). */
  lemma ExpiredIffCreatedAhead(s: ContextState, now: int)
    requires Consistent(s) && s.context.Some? && s.ttl.value >= 0
    ensures Expired(s, now) <==> s.created.value - now >= (s.ttl.value + 1) * MsPerMinute
  {
    var n, t := s.created.value - now, s.ttl.value;
    var q := TruncDiv(n, MsPerMinute);
    TruncDivBounds(n, MsPerMinute);
    if q > t {
      MulMonotone(t + 1, q, MsPerMinute);
    } else {
      MulMonotone(q, t, MsPerMinute);
    }
  }

  /** The expiry the documentation promises ("invalid after ttl minutes"): the whole minutes
      elapsed since creation exceed the TTL. */
  predicate DocumentedExpired(s: ContextState, now: int)
    requires Consistent(s)
  {
    s.context.Some? && MinutesDiff(now, s.created.value) > s.ttl.value
  }

  /** The gap between the two: a context read `ttl + 1` minutes after it was set is expired by the
      documented rule but survives verification as written. */
  lemma ExpiryContradictsDocumentation(c: Context, created: int, ttl: nat)
    ensures var s := ContextState(Some(c), Some(created), Some(ttl));
      var now := created + (ttl + 1) * MsPerMinute;
      DocumentedExpired(s, now) && !Expired(s, now) && HasContextAt(s, now)
  {
    var s := ContextState(Some(c), Some(created), Some(ttl));
    var now := created + (ttl + 1) * MsPerMinute;
    assert MinutesDiff(now, created) == ttl + 1;
    NeverExpiresAsWritten(s, now);
  }

  /** `setContext` replaces whatever was there: any later read (at or after the time it was set,
      with a non-negative TTL) returns exactly the new context. */
  lemma SetContextReplaces(c: Context, ttl: Option<int>, setAt: int, readAt: int)
    requires setAt <= readAt && ttl.GetOr(DefaultTTL) >= 0
    ensures ContextAt(WithContext(Some(c), ttl, setAt), readAt) == Some(c)
  {
    NeverExpiresAsWritten(WithContext(Some(c), ttl, setAt), readAt);
  }
}
