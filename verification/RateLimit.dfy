/** The fixed-window limiter: counters in Redis, incremented before they are judged.

    One attempt is one atomic pipeline, so an interleaving of attempts is an order of pipelines.
    Whether a key whose deadline is exactly now still counts as live is left open: every result
    holds for both readings. An attempt that Redis never counted is not part of this model. */
module RateLimit {
  import opened Common
  import Lists

  const RATE_WINDOW: Time := 15 * 60 * MICROSECONDS_PER_SECOND
  const MAX_LOGINS_PER_EMAIL: nat := 10
  const MAX_LOGINS_PER_IP: nat := 30
  const MAX_REGISTRATIONS_PER_IP: nat := 30

  /** A counter and the instant its key expires. */
  datatype Counter = Counter(count: nat, deadline: Time)

  type Counters = map<string, Counter>

  predicate Live(counter: Counter, now: Time, inclusive: bool) {
    now < counter.deadline || (inclusive && now == counter.deadline)
  }

  /** INCR followed by EXPIRE NX: a missing or expired key starts a window, a live one keeps it. */
  function Incremented(counters: Counters, key: string, now: Time, inclusive: bool): Counter {
    if key in counters && Live(counters[key], now, inclusive) then
      Counter(counters[key].count + 1, counters[key].deadline)
    else
      Counter(1, now + RATE_WINDOW)
  }

  function Counted(counters: Counters, keys: seq<string>, now: Time, inclusive: bool): Counters
    decreases |keys|
  {
    if keys == [] then counters
    else Counted(counters[keys[0] := Incremented(counters, keys[0], now, inclusive)], keys[1..], now, inclusive)
  }

  function EmailKey(foldedEmail: string): string { "login:email:" + foldedEmail }

  function IpKey(ip: string): string { "login:ip:" + ip }

  function RegistrationKey(ip: string): string { "register:ip:" + ip }

  /** No email or address, however chosen, makes two kinds of key collide, and keys of one kind
      collide only for equal subjects. */
  lemma KeysNeverCollide(a: string, b: string)
    ensures EmailKey(a) != IpKey(b) && EmailKey(a) != RegistrationKey(b) && IpKey(a) != RegistrationKey(b)
    ensures EmailKey(a) == EmailKey(b) ==> a == b
    ensures IpKey(a) == IpKey(b) ==> a == b
    ensures RegistrationKey(a) == RegistrationKey(b) ==> a == b
  {
    assert EmailKey(a)[6] == 'e' && IpKey(b)[6] == 'i' && IpKey(a)[0] == 'l';
    assert EmailKey(a)[0] == 'l' && RegistrationKey(b)[0] == 'r';
    assert a == EmailKey(a)[12..] && a == IpKey(a)[9..] && a == RegistrationKey(a)[12..];
    assert b == EmailKey(b)[12..] && b == IpKey(b)[9..] && b == RegistrationKey(b)[12..];
  }

  /** An attempt, with the moment its pipeline runs. The email is already case-folded. */
  datatype Attempt =
    | Login(email: string, ip: string, at: Time)
    | Registration(ip: string, at: Time)

  function Keys(a: Attempt): seq<string> {
    match a
    case Login(email, ip, _) => [EmailKey(email), IpKey(ip)]
    case Registration(ip, _) => [RegistrationKey(ip)]
  }

  /** What the returned counts decide. */
  predicate WithinLimits(a: Attempt, counts: seq<nat>)
    requires |counts| == |Keys(a)|
  {
    match a
    case Login(_, _, _) => counts[0] <= MAX_LOGINS_PER_EMAIL && counts[1] <= MAX_LOGINS_PER_IP
    case Registration(_, _) => counts[0] <= MAX_REGISTRATIONS_PER_IP
  }

  function CountsOf(counters: Counters, keys: seq<string>): seq<nat> {
    seq(|keys|, i requires 0 <= i < |keys| => if keys[i] in counters then counters[keys[i]].count else 0)
  }

  lemma {:induction false} CountedTouchesItsKeys(counters: Counters, keys: seq<string>, now: Time, inclusive: bool)
    requires Lists.Distinct(keys)
    ensures var after := Counted(counters, keys, now, inclusive);
            && (forall key | key !in keys :: key in after <==> key in counters)
            && (forall key | key !in keys && key in counters :: after[key] == counters[key])
            && (forall key | key in keys :: key in after && after[key] == Incremented(counters, key, now, inclusive))
    decreases |keys|
  {
    if keys != [] {
      var counters' := counters[keys[0] := Incremented(counters, keys[0], now, inclusive)];
      assert keys[0] !in keys[1..];
      CountedTouchesItsKeys(counters', keys[1..], now, inclusive);
      assert forall key :: key in keys <==> key == keys[0] || key in keys[1..];
    }
  }

  lemma AttemptKeysAreDistinct(a: Attempt)
    ensures Lists.Distinct(Keys(a))
  {
    if a.Login? {
      KeysNeverCollide(a.email, a.ip);
    }
  }

  /** The counter store, and the limiter that runs one pipeline against it per attempt. */
  class Limiter {
    var counters: Counters

    constructor ()
      ensures counters == map[]
    {
      counters := map[];
    }

    method Count(keys: seq<string>, now: Time, inclusive: bool) returns (counts: seq<nat>)
      requires Lists.Distinct(keys)
      modifies this
      ensures counters == Counted(old(counters), keys, now, inclusive)
      ensures counts == CountsOf(counters, keys)
    {
      counts := [];
      for n := 0 to |keys|
        invariant Counted(counters, keys[n..], now, inclusive) == Counted(old(counters), keys, now, inclusive)
        invariant counts == CountsOf(counters, keys[..n])
      {
        var counter := Incremented(counters, keys[n], now, inclusive);
        assert keys[n..][1..] == keys[n + 1..];
        assert keys[..n + 1] == keys[..n] + [keys[n]];
        counters := counters[keys[n] := counter];
        counts := counts + [counter.count];
      }
      assert keys[..|keys|] == keys;
    }

    /** False stands for the RateLimitedError. */
    method CountAttempt(a: Attempt, inclusive: bool) returns (allowed: bool)
      modifies this
      ensures counters == Counted(old(counters), Keys(a), a.at, inclusive)
      ensures allowed <==> WithinLimits(a, CountsOf(counters, Keys(a)))
    {
      AttemptKeysAreDistinct(a);
      var counts := Count(Keys(a), a.at, inclusive);
      allowed := WithinLimits(a, counts);
    }
  }

  // Runs: any interleaving of attempts, in the order their pipelines run.

  predicate Ordered(attempts: seq<Attempt>) {
    forall i, j :: 0 <= i < j < |attempts| ==> attempts[i].at <= attempts[j].at
  }

  /** The counters once the first n attempts have been counted. */
  function After(attempts: seq<Attempt>, n: nat, inclusive: bool): Counters
    requires n <= |attempts|
  {
    if n == 0 then map[]
    else Counted(After(attempts, n - 1, inclusive), Keys(attempts[n - 1]), attempts[n - 1].at, inclusive)
  }

  predicate Allowed(attempts: seq<Attempt>, i: nat, inclusive: bool)
    requires i < |attempts|
  {
    WithinLimits(attempts[i], CountsOf(After(attempts, i + 1, inclusive), Keys(attempts[i])))
  }

  predicate Touches(attempts: seq<Attempt>, i: int, key: string) {
    0 <= i < |attempts| && key in Keys(attempts[i])
  }

  /** The counter of a key after the attempt that touches it, and after one that does not. */
  lemma CounterAfter(attempts: seq<Attempt>, n: nat, key: string, inclusive: bool)
    requires n < |attempts|
    ensures var before := After(attempts, n, inclusive);
            var after := After(attempts, n + 1, inclusive);
            if Touches(attempts, n, key)
            then key in after && after[key] == Incremented(before, key, attempts[n].at, inclusive)
            else (key in after <==> key in before) && (key in before ==> after[key] == before[key])
  {
    AttemptKeysAreDistinct(attempts[n]);
    CountedTouchesItsKeys(After(attempts, n, inclusive), Keys(attempts[n]), attempts[n].at, inclusive);
  }

  /** 900 seconds, with or without its last instant. */
  datatype Stretch = Stretch(from: Time, closed: bool)

  predicate Within(at: Time, stretch: Stretch) {
    var end := stretch.from + RATE_WINDOW;
    stretch.from <= at && (at < end || (stretch.closed && at == end))
  }

  /** Attempt i touches the key within the stretch and found its count at most limit. */
  predicate IsLow(attempts: seq<Attempt>, i: int, key: string, limit: nat, stretch: Stretch, inclusive: bool) {
    && Touches(attempts, i, key)
    && Within(attempts[i].at, stretch)
    && key in After(attempts, i + 1, inclusive)
    && After(attempts, i + 1, inclusive)[key].count <= limit
  }

  function Low(attempts: seq<Attempt>, n: nat, key: string, limit: nat, stretch: Stretch, inclusive: bool): set<int> {
    set i | 0 <= i < n && IsLow(attempts, i, key, limit, stretch, inclusive)
  }

  function Min(a: int, b: int): int { if a < b then a else b }

  /** A stretch takes in the end of one window and the start of the next. The two can each be whole
      only if it is closed, and a key at its deadline is expired. */
  function Most(limit: nat, stretch: Stretch, inclusive: bool): int {
    if stretch.closed && !inclusive then 2 * limit else 2 * limit - 1
  }

  /** How many attempts can have been low, given where the key's current window started. */
  predicate BoundedBy(counter: Counter, low: nat, limit: nat, stretch: Stretch, inclusive: bool) {
    var start := counter.deadline - RATE_WINDOW;
    var end := stretch.from + RATE_WINDOW;
    && counter.count >= 1
    && (low > 0 ==> Live(counter, stretch.from, inclusive))
    && if start < stretch.from then low <= Min(counter.count, limit) - 1
       else if start == stretch.from then low <= Min(counter.count, limit)
       else if start < end then low <= limit - 1 + Min(counter.count, limit)
       else if start == end && stretch.closed then
         low <= Min(counter.count, limit) + if inclusive then limit - 1 else limit
       else low <= Most(limit, stretch, inclusive)
  }

  ghost predicate Bounded(attempts: seq<Attempt>, n: nat, key: string, limit: nat, stretch: Stretch, inclusive: bool)
    requires n <= |attempts|
  {
    var counters := After(attempts, n, inclusive);
    var low := |Low(attempts, n, key, limit, stretch, inclusive)|;
    if key !in counters then low == 0
    else
      && n > 0 && counters[key].deadline - RATE_WINDOW <= attempts[n - 1].at
      && BoundedBy(counters[key], low, limit, stretch, inclusive)
  }

  lemma CountingKeepsBound(counters: Counters, key: string, at: Time, inclusive: bool, low: nat, limit: nat,
                           stretch: Stretch)
    requires limit >= 1 && (at < stretch.from ==> low == 0)
    requires key !in counters ==> low == 0
    requires key in counters ==>
               && counters[key].deadline - RATE_WINDOW <= at
               && BoundedBy(counters[key], low, limit, stretch, inclusive)
    ensures (var counter := Incremented(counters, key, at, inclusive);
             var isLow := Within(at, stretch) && counter.count <= limit;
             && counter.deadline - RATE_WINDOW <= at
             && BoundedBy(counter, low + if isLow then 1 else 0, limit, stretch, inclusive))
  {}

  lemma LowGrows(attempts: seq<Attempt>, n: nat, key: string, limit: nat, stretch: Stretch, inclusive: bool)
    ensures |Low(attempts, n + 1, key, limit, stretch, inclusive)|
         == |Low(attempts, n, key, limit, stretch, inclusive)|
            + if IsLow(attempts, n, key, limit, stretch, inclusive) then 1 else 0
  {
    hide IsLow;
    var low := Low(attempts, n, key, limit, stretch, inclusive);
    var low' := Low(attempts, n + 1, key, limit, stretch, inclusive);
    assert low' == if n in low' then low + {n} else low;
  }

  lemma NoneBefore(attempts: seq<Attempt>, n: nat, key: string, limit: nat, stretch: Stretch, inclusive: bool)
    requires Ordered(attempts) && n < |attempts| && attempts[n].at < stretch.from
    ensures Low(attempts, n, key, limit, stretch, inclusive) == {}
  {}

  lemma OneMoreIsBounded(attempts: seq<Attempt>, n: nat, key: string, limit: nat, stretch: Stretch, inclusive: bool)
    requires Ordered(attempts) && n < |attempts| && limit >= 1
    requires Bounded(attempts, n, key, limit, stretch, inclusive)
    ensures Bounded(attempts, n + 1, key, limit, stretch, inclusive)
  {
    assert n > 0 ==> attempts[n - 1].at <= attempts[n].at;
    if attempts[n].at < stretch.from {
      NoneBefore(attempts, n, key, limit, stretch, inclusive);
    }
    hide After, Low, BoundedBy, Incremented, Ordered, Touches;
    LowGrows(attempts, n, key, limit, stretch, inclusive);
    CounterAfter(attempts, n, key, inclusive);
    if Touches(attempts, n, key) {
      hide Within;
      CountingKeepsBound(After(attempts, n, inclusive), key, attempts[n].at, inclusive,
                         |Low(attempts, n, key, limit, stretch, inclusive)|, limit, stretch);
    }
  }

  lemma {:induction false} LowIsBounded(attempts: seq<Attempt>, n: nat, key: string, limit: nat, stretch: Stretch,
                                        inclusive: bool)
    requires Ordered(attempts) && n <= |attempts| && limit >= 1
    ensures Bounded(attempts, n, key, limit, stretch, inclusive)
    decreases n
  {
    if n == 0 {
      assert Low(attempts, 0, key, limit, stretch, inclusive) == {};
    } else {
      hide Bounded;
      LowIsBounded(attempts, n - 1, key, limit, stretch, inclusive);
      OneMoreIsBounded(attempts, n - 1, key, limit, stretch, inclusive);
    }
  }

  lemma BoundedLow(attempts: seq<Attempt>, key: string, limit: nat, stretch: Stretch, inclusive: bool)
    requires Ordered(attempts) && limit >= 1
    ensures |Low(attempts, |attempts|, key, limit, stretch, inclusive)| <= Most(limit, stretch, inclusive)
  {
    LowIsBounded(attempts, |attempts|, key, limit, stretch, inclusive);
    hide After, Low, Ordered;
  }

  function AllowedLoginsOfEmail(attempts: seq<Attempt>, email: string, stretch: Stretch, inclusive: bool): set<int> {
    set i | 0 <= i < |attempts| && attempts[i].Login? && attempts[i].email == email
            && Within(attempts[i].at, stretch) && Allowed(attempts, i, inclusive)
  }

  function AllowedLoginsOfIp(attempts: seq<Attempt>, ip: string, stretch: Stretch, inclusive: bool): set<int> {
    set i | 0 <= i < |attempts| && attempts[i].Login? && attempts[i].ip == ip
            && Within(attempts[i].at, stretch) && Allowed(attempts, i, inclusive)
  }

  function AllowedRegistrationsOfIp(attempts: seq<Attempt>, ip: string, stretch: Stretch, inclusive: bool): set<int> {
    set i | 0 <= i < |attempts| && attempts[i].Registration? && attempts[i].ip == ip
            && Within(attempts[i].at, stretch) && Allowed(attempts, i, inclusive)
  }

  lemma SubsetIsNoLarger(a: set<int>, b: set<int>)
    requires a <= b
    ensures |a| <= |b|
  {
    assert b == a + (b - a);
  }

  /** An allowed attempt found each of its keys within that key's limit. */
  lemma AllowedIsLow(attempts: seq<Attempt>, i: nat, j: nat, stretch: Stretch, inclusive: bool)
    requires i < |attempts| && j < |Keys(attempts[i])| && Allowed(attempts, i, inclusive)
    requires Within(attempts[i].at, stretch)
    ensures IsLow(attempts, i, Keys(attempts[i])[j],
                  if attempts[i].Registration? then MAX_REGISTRATIONS_PER_IP
                  else if j == 0 then MAX_LOGINS_PER_EMAIL else MAX_LOGINS_PER_IP, stretch, inclusive)
  {
    CounterAfter(attempts, i, Keys(attempts[i])[j], inclusive);
    hide After;
  }

  /** In any stretch of 900 seconds, over any interleaving of attempts, at most one less than twice
      the limit gets through, 19 logins per email, 59 per address and 59 registrations, or one more if
      the stretch is closed and a key at its deadline is expired. */
  lemma AllowedInAnyWindow(attempts: seq<Attempt>, email: string, ip: string, stretch: Stretch, inclusive: bool)
    requires Ordered(attempts)
    ensures |AllowedLoginsOfEmail(attempts, email, stretch, inclusive)|
         <= Most(MAX_LOGINS_PER_EMAIL, stretch, inclusive)
    ensures |AllowedLoginsOfIp(attempts, ip, stretch, inclusive)| <= Most(MAX_LOGINS_PER_IP, stretch, inclusive)
    ensures |AllowedRegistrationsOfIp(attempts, ip, stretch, inclusive)|
         <= Most(MAX_REGISTRATIONS_PER_IP, stretch, inclusive)
  {
    hide IsLow, Allowed, Ordered;
    var n := |attempts|;
    var emails := AllowedLoginsOfEmail(attempts, email, stretch, inclusive);
    forall i | i in emails
      ensures IsLow(attempts, i, EmailKey(email), MAX_LOGINS_PER_EMAIL, stretch, inclusive)
    {
      AllowedIsLow(attempts, i, 0, stretch, inclusive);
    }
    var ips := AllowedLoginsOfIp(attempts, ip, stretch, inclusive);
    forall i | i in ips
      ensures IsLow(attempts, i, IpKey(ip), MAX_LOGINS_PER_IP, stretch, inclusive)
    {
      AllowedIsLow(attempts, i, 1, stretch, inclusive);
    }
    var registrations := AllowedRegistrationsOfIp(attempts, ip, stretch, inclusive);
    forall i | i in registrations
      ensures IsLow(attempts, i, RegistrationKey(ip), MAX_REGISTRATIONS_PER_IP, stretch, inclusive)
    {
      AllowedIsLow(attempts, i, 0, stretch, inclusive);
    }
    BoundedLow(attempts, EmailKey(email), MAX_LOGINS_PER_EMAIL, stretch, inclusive);
    BoundedLow(attempts, IpKey(ip), MAX_LOGINS_PER_IP, stretch, inclusive);
    BoundedLow(attempts, RegistrationKey(ip), MAX_REGISTRATIONS_PER_IP, stretch, inclusive);
    SubsetIsNoLarger(emails, Low(attempts, n, EmailKey(email), MAX_LOGINS_PER_EMAIL, stretch, inclusive));
    SubsetIsNoLarger(ips, Low(attempts, n, IpKey(ip), MAX_LOGINS_PER_IP, stretch, inclusive));
    SubsetIsNoLarger(registrations,
                     Low(attempts, n, RegistrationKey(ip), MAX_REGISTRATIONS_PER_IP, stretch, inclusive));
  }

  /** The same in numbers: attempts that were allowed, on one email or one address, within 900 seconds. */
  lemma AllowedInNumbers(attempts: seq<Attempt>, email: string, ip: string, from: Time, inclusive: bool, some: set<int>)
    requires Ordered(attempts)
    requires forall i | i in some ::
               0 <= i < |attempts| && Allowed(attempts, i, inclusive) && from <= attempts[i].at < from + 900_000_000
    ensures (forall i | i in some :: attempts[i].Login? && attempts[i].email == email) ==> |some| <= 19
    ensures (forall i | i in some :: attempts[i].Login? && attempts[i].ip == ip) ==> |some| <= 59
    ensures (forall i | i in some :: attempts[i].Registration? && attempts[i].ip == ip) ==> |some| <= 59
  {
    var stretch := Stretch(from, false);
    AllowedInAnyWindow(attempts, email, ip, stretch, inclusive);
    hide Ordered, Allowed;
    if forall i | i in some :: attempts[i].Login? && attempts[i].email == email {
      SubsetIsNoLarger(some, AllowedLoginsOfEmail(attempts, email, stretch, inclusive));
    }
    if forall i | i in some :: attempts[i].Login? && attempts[i].ip == ip {
      SubsetIsNoLarger(some, AllowedLoginsOfIp(attempts, ip, stretch, inclusive));
    }
    if forall i | i in some :: attempts[i].Registration? && attempts[i].ip == ip {
      SubsetIsNoLarger(some, AllowedRegistrationsOfIp(attempts, ip, stretch, inclusive));
    }
  }

  /** The first ten logins of an email, thirty of an address and thirty registrations find their keys
      within the limit, and the next do not. */
  lemma LimitsInNumbers(a: Attempt, counts: seq<nat>)
    requires |counts| == |Keys(a)|
    ensures a.Login? ==> (WithinLimits(a, counts) <==> counts[0] <= 10 && counts[1] <= 30)
    ensures a.Registration? ==> (WithinLimits(a, counts) <==> counts[0] <= 30)
    ensures RATE_WINDOW == 900 * 1_000_000
  {}

  // One window.

  function Hits(attempts: seq<Attempt>, m: nat, n: nat, key: string): nat
    requires m <= n
    decreases n - m
  {
    if m == n then 0 else Hits(attempts, m, n - 1, key) + if Touches(attempts, n - 1, key) then 1 else 0
  }

  /** While a key's window lasts, every attempt on it, refused ones included, adds one to its count
      and none moves its deadline. */
  lemma {:induction false} WindowIsFixed(attempts: seq<Attempt>, m: nat, n: nat, key: string, inclusive: bool)
    requires m <= n <= |attempts| && key in After(attempts, m, inclusive)
    requires forall i | m <= i < n :: Live(After(attempts, m, inclusive)[key], attempts[i].at, inclusive)
    ensures key in After(attempts, n, inclusive)
    ensures After(attempts, n, inclusive)[key].deadline == After(attempts, m, inclusive)[key].deadline
    ensures After(attempts, n, inclusive)[key].count
         == After(attempts, m, inclusive)[key].count + Hits(attempts, m, n, key)
    decreases n - m
  {
    if m < n {
      WindowIsFixed(attempts, m, n - 1, key, inclusive);
      CounterAfter(attempts, n - 1, key, inclusive);
      hide After, Keys;
    }
  }

  /** Once the deadline has passed, the next attempt starts a window of its own. */
  lemma DeadlineUnlocks(attempts: seq<Attempt>, n: nat, key: string, inclusive: bool)
    requires n < |attempts| && Touches(attempts, n, key)
    requires key in After(attempts, n, inclusive) ==> After(attempts, n, inclusive)[key].deadline < attempts[n].at
    ensures key in After(attempts, n + 1, inclusive)
    ensures After(attempts, n + 1, inclusive)[key] == Counter(1, attempts[n].at + RATE_WINDOW)
  {
    CounterAfter(attempts, n, key, inclusive);
    hide After;
  }

  // The bounds are met.

  type Maker = (nat, Time) -> Attempt

  /** Attempts straddle two windows. One attempt opens the first, the rest of the limit comes at its
      end, and the limit again at the start of the next; or, if the ends may meet, the limit comes at
      once, and again when the first window ends. */
  function StraddlingTime(limit: nat, i: nat, meet: bool): Time {
    if i == 0 || (meet && i < limit) then 0
    else if i < limit then 2
    else if meet then RATE_WINDOW
    else RATE_WINDOW + 1
  }

  function Straddling(limit: nat, make: Maker, meet: bool): seq<Attempt> {
    seq(2 * limit, i requires 0 <= i < 2 * limit => make(i, StraddlingTime(limit, i, meet)))
  }

  /** Whether two whole windows fit in a stretch. */
  predicate Meet(closed: bool, inclusive: bool) {
    closed && !inclusive
  }

  /** The stretch that takes in as much as it can. */
  function Straddled(closed: bool, inclusive: bool): Stretch {
    Stretch(if Meet(closed, inclusive) then 0 else 2, closed)
  }

  ghost predicate KeepsTime(make: Maker) {
    forall i: nat, at :: make(i, at).at == at
  }

  lemma StraddlingIsOrdered(limit: nat, make: Maker, meet: bool)
    requires KeepsTime(make)
    ensures Ordered(Straddling(limit, make, meet)) && |Straddling(limit, make, meet)| == 2 * limit
  {
    forall i | 0 <= i < 2 * limit
      ensures Straddling(limit, make, meet)[i].at == StraddlingTime(limit, i, meet)
    {
      assert make(i, StraddlingTime(limit, i, meet)).at == StraddlingTime(limit, i, meet);
    }
  }

  /** The counter after n attempts. */
  function StraddlingCounter(limit: nat, n: nat, meet: bool): Counter {
    if n <= limit then Counter(n, RATE_WINDOW)
    else Counter(n - limit, 2 * RATE_WINDOW + if meet then 0 else 1)
  }

  lemma StraddlingStep(counters: Counters, key: string, limit: nat, n: nat, meet: bool, inclusive: bool)
    requires n < 2 * limit && !(meet && inclusive)
    requires if n == 0 then key !in counters
             else key in counters && counters[key] == StraddlingCounter(limit, n, meet)
    ensures Incremented(counters, key, StraddlingTime(limit, n, meet), inclusive)
         == StraddlingCounter(limit, n + 1, meet)
  {}

  lemma {:induction false} StraddlingCounts(limit: nat, make: Maker, meet: bool, n: nat, key: string,
                                            inclusive: bool)
    requires n <= 2 * limit && !(meet && inclusive) && KeepsTime(make) && forall i: nat, at :: key in Keys(make(i, at))
    ensures var after := After(Straddling(limit, make, meet), n, inclusive);
            if n == 0 then key !in after
            else key in after && after[key] == StraddlingCounter(limit, n, meet)
  {
    if n > 0 {
      var attempts := Straddling(limit, make, meet);
      var at := StraddlingTime(limit, n - 1, meet);
      assert key in Keys(make(n - 1, at)) && make(n - 1, at).at == at;
      assert Touches(attempts, n - 1, key) && attempts[n - 1].at == at;
      StraddlingCounts(limit, make, meet, n - 1, key, inclusive);
      hide After, Keys, Straddling, Touches, StraddlingCounter, StraddlingTime, Incremented;
      CounterAfter(attempts, n - 1, key, inclusive);
      StraddlingStep(After(attempts, n - 1, inclusive), key, limit, n - 1, meet, inclusive);
    }
  }

  lemma {:induction false} UntouchedIsAbsent(attempts: seq<Attempt>, n: nat, key: string, inclusive: bool)
    requires n <= |attempts| && forall i | 0 <= i < n :: !Touches(attempts, i, key)
    ensures key !in After(attempts, n, inclusive)
  {
    if n > 0 {
      UntouchedIsAbsent(attempts, n - 1, key, inclusive);
      CounterAfter(attempts, n - 1, key, inclusive);
    }
  }

  ghost function Below(n: nat): (below: set<int>)
    ensures |below| == n
    ensures forall i :: i in below <==> 0 <= i < n
  {
    if n == 0 then {} else Below(n - 1) + {n - 1}
  }

  /** Every attempt falls within the stretch, except the one that opened the first window if the
      windows do not meet. */
  lemma StraddlingWindow(limit: nat, make: Maker, closed: bool, inclusive: bool, passed: set<int>)
    requires limit > 0 && KeepsTime(make)
    requires var attempts := Straddling(limit, make, Meet(closed, inclusive));
             forall i :: i in passed <==>
               0 <= i < 2 * limit && Within(attempts[i].at, Straddled(closed, inclusive))
    ensures |passed| == Most(limit, Straddled(closed, inclusive), inclusive)
  {
    var meet := Meet(closed, inclusive);
    forall i | 0 <= i < 2 * limit
      ensures Straddling(limit, make, meet)[i].at == StraddlingTime(limit, i, meet)
    {
      assert make(i, StraddlingTime(limit, i, meet)).at == StraddlingTime(limit, i, meet);
    }
    assert passed == if meet then Below(2 * limit) else Below(2 * limit) - {0};
  }

  function OneEmail(): Maker { (i: nat, at: Time) => Login("e", "ip", at) }

  function OneIp(): Maker { (i: nat, at: Time) => Login(Email(i), "ip", at) }

  function Registrations(): Maker { (i: nat, at: Time) => Registration("ip", at) }

  /** A different email for every number. */
  function Email(i: nat): string {
    seq(i, _ => 'e')
  }

  lemma OneEmailIsAllowed(i: nat, meet: bool, inclusive: bool)
    requires i < 2 * MAX_LOGINS_PER_EMAIL && !(meet && inclusive)
    ensures Allowed(Straddling(MAX_LOGINS_PER_EMAIL, OneEmail(), meet), i, inclusive)
  {
    StraddlingCounts(MAX_LOGINS_PER_EMAIL, OneEmail(), meet, i + 1, EmailKey("e"), inclusive);
    StraddlingCounts(MAX_LOGINS_PER_EMAIL, OneEmail(), meet, i + 1, IpKey("ip"), inclusive);
    hide After;
  }

  /** The address is within its limit, and no email has been seen before. */
  lemma OneIpIsAllowed(i: nat, meet: bool, inclusive: bool)
    requires i < 2 * MAX_LOGINS_PER_IP && !(meet && inclusive)
    ensures Allowed(Straddling(MAX_LOGINS_PER_IP, OneIp(), meet), i, inclusive)
  {
    var attempts := Straddling(MAX_LOGINS_PER_IP, OneIp(), meet);
    var key := EmailKey(Email(i));
    StraddlingCounts(MAX_LOGINS_PER_IP, OneIp(), meet, i + 1, IpKey("ip"), inclusive);
    forall j | 0 <= j < i
      ensures !Touches(attempts, j, key)
    {
      assert |Email(j)| != |Email(i)|;
      KeysNeverCollide(Email(i), Email(j));
      KeysNeverCollide(Email(i), "ip");
    }
    UntouchedIsAbsent(attempts, i, key, inclusive);
    CounterAfter(attempts, i, key, inclusive);
    hide After;
  }

  lemma RegistrationIsAllowed(i: nat, meet: bool, inclusive: bool)
    requires i < 2 * MAX_REGISTRATIONS_PER_IP && !(meet && inclusive)
    ensures Allowed(Straddling(MAX_REGISTRATIONS_PER_IP, Registrations(), meet), i, inclusive)
  {
    StraddlingCounts(MAX_REGISTRATIONS_PER_IP, Registrations(), meet, i + 1, RegistrationKey("ip"), inclusive);
    hide After;
  }

  lemma EmailBoundIsMet(closed: bool, inclusive: bool)
    ensures var attempts := Straddling(MAX_LOGINS_PER_EMAIL, OneEmail(), Meet(closed, inclusive));
            var stretch := Straddled(closed, inclusive);
            && Ordered(attempts)
            && |AllowedLoginsOfEmail(attempts, "e", stretch, inclusive)|
               == Most(MAX_LOGINS_PER_EMAIL, stretch, inclusive)
  {
    var meet := Meet(closed, inclusive);
    var attempts := Straddling(MAX_LOGINS_PER_EMAIL, OneEmail(), meet);
    StraddlingIsOrdered(MAX_LOGINS_PER_EMAIL, OneEmail(), meet);
    forall i | 0 <= i < |attempts|
      ensures Allowed(attempts, i, inclusive)
    {
      OneEmailIsAllowed(i, meet, inclusive);
    }
    hide Allowed, Within;
    StraddlingWindow(MAX_LOGINS_PER_EMAIL, OneEmail(), closed, inclusive,
                     AllowedLoginsOfEmail(attempts, "e", Straddled(closed, inclusive), inclusive));
  }

  lemma IpBoundIsMet(closed: bool, inclusive: bool)
    ensures var attempts := Straddling(MAX_LOGINS_PER_IP, OneIp(), Meet(closed, inclusive));
            var stretch := Straddled(closed, inclusive);
            && Ordered(attempts)
            && |AllowedLoginsOfIp(attempts, "ip", stretch, inclusive)| == Most(MAX_LOGINS_PER_IP, stretch, inclusive)
  {
    var meet := Meet(closed, inclusive);
    var attempts := Straddling(MAX_LOGINS_PER_IP, OneIp(), meet);
    StraddlingIsOrdered(MAX_LOGINS_PER_IP, OneIp(), meet);
    forall i | 0 <= i < |attempts|
      ensures Allowed(attempts, i, inclusive)
    {
      OneIpIsAllowed(i, meet, inclusive);
    }
    hide Allowed, Within;
    StraddlingWindow(MAX_LOGINS_PER_IP, OneIp(), closed, inclusive,
                     AllowedLoginsOfIp(attempts, "ip", Straddled(closed, inclusive), inclusive));
  }

  lemma RegistrationBoundIsMet(closed: bool, inclusive: bool)
    ensures var attempts := Straddling(MAX_REGISTRATIONS_PER_IP, Registrations(), Meet(closed, inclusive));
            var stretch := Straddled(closed, inclusive);
            && Ordered(attempts)
            && |AllowedRegistrationsOfIp(attempts, "ip", stretch, inclusive)|
               == Most(MAX_REGISTRATIONS_PER_IP, stretch, inclusive)
  {
    var meet := Meet(closed, inclusive);
    var attempts := Straddling(MAX_REGISTRATIONS_PER_IP, Registrations(), meet);
    StraddlingIsOrdered(MAX_REGISTRATIONS_PER_IP, Registrations(), meet);
    forall i | 0 <= i < |attempts|
      ensures Allowed(attempts, i, inclusive)
    {
      RegistrationIsAllowed(i, meet, inclusive);
    }
    hide Allowed, Within;
    StraddlingWindow(MAX_REGISTRATIONS_PER_IP, Registrations(), closed, inclusive,
                     AllowedRegistrationsOfIp(attempts, "ip", Straddled(closed, inclusive), inclusive));
  }

  /** The bounds are met, closed or not, and whichever way the deadline is read. */
  lemma BoundsAreMet(closed: bool, inclusive: bool)
    ensures exists attempts, stretch: Stretch ::
              && stretch.closed == closed && Ordered(attempts)
              && |AllowedLoginsOfEmail(attempts, "e", stretch, inclusive)|
                 == Most(MAX_LOGINS_PER_EMAIL, stretch, inclusive)
    ensures exists attempts, stretch: Stretch ::
              && stretch.closed == closed && Ordered(attempts)
              && |AllowedLoginsOfIp(attempts, "ip", stretch, inclusive)| == Most(MAX_LOGINS_PER_IP, stretch, inclusive)
    ensures exists attempts, stretch: Stretch ::
              && stretch.closed == closed && Ordered(attempts)
              && |AllowedRegistrationsOfIp(attempts, "ip", stretch, inclusive)|
                 == Most(MAX_REGISTRATIONS_PER_IP, stretch, inclusive)
  {
    EmailBoundIsMet(closed, inclusive);
    IpBoundIsMet(closed, inclusive);
    RegistrationBoundIsMet(closed, inclusive);
    assert Straddled(closed, inclusive).closed == closed;
    hide Ordered, AllowedLoginsOfEmail, AllowedLoginsOfIp, AllowedRegistrationsOfIp, Straddling;
  }

  /** And in numbers. */
  lemma BoundsInNumbers(closed: bool, inclusive: bool, from: Time)
    ensures var stretch := Stretch(from, closed);
            var more := if closed && !inclusive then 1 else 0;
            && Most(MAX_LOGINS_PER_EMAIL, stretch, inclusive) == 19 + more
            && Most(MAX_LOGINS_PER_IP, stretch, inclusive) == 59 + more
            && Most(MAX_REGISTRATIONS_PER_IP, stretch, inclusive) == 59 + more
  {}
}
