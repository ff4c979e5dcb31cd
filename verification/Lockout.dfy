/** Login lockout of the web administration. Time is in seconds. */
module Lockout {
  import opened Bytes

  const MAX_FAIL_COUNT := 5
  const LOCK_SECONDS: real := 300.0

  datatype Record = Record(count: nat, lockUntil: real)

  type Records = map<string, Record>

  datatype Verdict = Locked(remaining: int) | Failed | Success

  /** `_check_locked` at a moment: the records after it, and the seconds left if locked. */
  function CheckLocked(r: Records, user: string, now: real): (Records, Option<int>) {
    if user !in r then (r, None)
    else if r[user].lockUntil > now then (r, Some((r[user].lockUntil - now).Floor))
    else if r[user].count >= MAX_FAIL_COUNT then (r - {user}, None)
    else (r, None)
  }

  function RecordFail(r: Records, user: string, now: real): Records {
    var before := if user in r then r[user] else Record(0, 0.0);
    var count := before.count + 1;
    r[user := Record(count, if count >= MAX_FAIL_COUNT then now + LOCK_SECONDS else before.lockUntil)]
  }

  /** One call of authenticate. The clock is read when it starts and again when a failure is
      recorded; `valid` says whether the user exists and the password is right. */
  datatype Attempt = Attempt(user: string, valid: bool, start: real, end: real)

  function Judge(r: Records, a: Attempt): (Records, Verdict) {
    var (checked, remaining) := CheckLocked(r, a.user, a.start);
    match remaining
    case Some(n) => (checked, Locked(n))
    case None =>
      if a.valid then (checked - {a.user}, Success)
      else (RecordFail(checked, a.user, a.end), Failed)
  }

  function After(r: Records, attempts: seq<Attempt>): Records
    decreases |attempts|
  {
    if attempts == [] then r else After(Judge(r, attempts[0]).0, attempts[1..])
  }

  /** Failed verifications of one user in a series of attempts. */
  function Failures(r: Records, attempts: seq<Attempt>, user: string): nat
    decreases |attempts|
  {
    if attempts == [] then 0
    else
      var (r', verdict) := Judge(r, attempts[0]);
      (if attempts[0].user == user && verdict.Failed? then 1 else 0) + Failures(r', attempts[1..], user)
  }

  function Successes(r: Records, attempts: seq<Attempt>, user: string): nat
    decreases |attempts|
  {
    if attempts == [] then 0
    else
      var (r', verdict) := Judge(r, attempts[0]);
      (if attempts[0].user == user && verdict.Success? then 1 else 0) + Successes(r', attempts[1..], user)
  }

  /** The clock never goes back. */
  ghost predicate ClockOk(attempts: seq<Attempt>) {
    && (forall i :: 0 <= i < |attempts| ==> attempts[i].start <= attempts[i].end)
    && (forall i, j :: 0 <= i < j < |attempts| ==> attempts[i].end <= attempts[j].start)
  }

  function CountOf(r: Records, user: string): nat {
    if user in r then r[user].count else 0
  }

  ghost predicate Bounded(r: Records) {
    forall user :: user in r ==> r[user].count <= MAX_FAIL_COUNT
  }

  lemma AttemptBounded(r: Records, a: Attempt)
    requires Bounded(r)
    ensures Bounded(Judge(r, a).0)
  {
  }

  lemma {:induction false} CountNeverExceeds(r: Records, attempts: seq<Attempt>)
    requires Bounded(r)
    ensures Bounded(After(r, attempts))
    decreases |attempts|
  {
    if attempts != [] {
      AttemptBounded(r, attempts[0]);
      CountNeverExceeds(Judge(r, attempts[0]).0, attempts[1..]);
    }
  }

  /** With w failures of the window behind it, the record counts at least those, and if it
      is full its lock outlasts the window. */
  ghost predicate WindowOk(r: Records, user: string, opens: real, w: nat) {
    && w <= CountOf(r, user) <= MAX_FAIL_COUNT
    && (w > 0 && CountOf(r, user) == MAX_FAIL_COUNT ==> r[user].lockUntil >= opens + LOCK_SECONDS)
  }

  lemma {:induction false} WindowBound(r: Records, attempts: seq<Attempt>, user: string, opens: real, w: nat)
    requires ClockOk(attempts) && WindowOk(r, user, opens, w)
    requires forall a :: a in attempts ==> opens <= a.end < opens + LOCK_SECONDS
    requires Successes(r, attempts, user) == 0
    ensures w + Failures(r, attempts, user) <= MAX_FAIL_COUNT
    decreases |attempts|
  {
    if attempts != [] {
      var a := attempts[0];
      var (r', verdict) := Judge(r, a);
      assert a in attempts && a.start <= a.end;
      WindowBound(r', attempts[1..], user, opens, if a.user == user && verdict.Failed? then w + 1 else w);
    }
  }

  /** Over any history: a window shorter than 300 seconds in which a user does not succeed
      holds at most 5 failed verifications of that user. */
  lemma FailureRate(history: seq<Attempt>, window: seq<Attempt>, user: string, opens: real)
    requires ClockOk(history + window)
    requires forall a :: a in window ==> opens <= a.end < opens + LOCK_SECONDS
    requires Successes(After(map[], history), window, user) == 0
    ensures Failures(After(map[], history), window, user) <= MAX_FAIL_COUNT
    ensures CountOf(After(map[], history), user) <= MAX_FAIL_COUNT
  {
    var r := After(map[], history);
    CountNeverExceeds(map[], history);
    assert ClockOk(window) by {
      forall i | 0 <= i < |window|
        ensures window[i] == (history + window)[|history| + i]
      {
      }
    }
    WindowBound(r, window, user, opens, 0);
  }

  /** n wrong passwords in a row at one moment. */
  function Wrong(user: string, n: nat, at: real): seq<Attempt> {
    if n == 0 then [] else [Attempt(user, false, at, at)] + Wrong(user, n - 1, at)
  }

  lemma {:induction false} WrongFails(r: Records, user: string, n: nat, at: real)
    requires at >= 0.0 && CountOf(r, user) + n <= MAX_FAIL_COUNT && (user in r ==> r[user].lockUntil <= at)
    requires n > 0 ==> CountOf(r, user) < MAX_FAIL_COUNT
    ensures Failures(r, Wrong(user, n, at), user) == n
    ensures n > 0 ==> After(r, Wrong(user, n, at)) == r[user := Record(CountOf(r, user) + n,
      if CountOf(r, user) + n == MAX_FAIL_COUNT then at + LOCK_SECONDS else if user in r then r[user].lockUntil else 0.0)]
    decreases n
  {
    if n > 0 {
      var attempts := Wrong(user, n, at);
      var r' := Judge(r, attempts[0]).0;
      assert attempts[1..] == Wrong(user, n - 1, at);
      if n > 1 {
        WrongFails(r', user, n - 1, at);
        assert r'[user := After(r, attempts)[user]] == r[user := After(r, attempts)[user]];
      }
    }
  }

  lemma {:induction false} FailuresConcat(r: Records, a: seq<Attempt>, b: seq<Attempt>, user: string)
    ensures Failures(r, a + b, user) == Failures(r, a, user) + Failures(After(r, a), b, user)
    decreases |a|
  {
    if a == [] {
      assert a + b == b;
    } else {
      assert (a + b)[1..] == a[1..] + b;
      FailuresConcat(Judge(r, a[0]).0, a[1..], b, user);
    }
  }

  /** The bound is exact: 300 seconds are enough for ten. */
  lemma TenInThreeHundredSeconds(user: string, at: real)
    requires at >= 0.0
    ensures Failures(map[], Wrong(user, 5, at) + Wrong(user, 5, at + LOCK_SECONDS), user) == 10
  {
    var first, later := Wrong(user, 5, at), at + LOCK_SECONDS;
    WrongFails(map[], user, 5, at);
    var r: Records := map[user := Record(5, later)];
    assert After(map[], first) == r;
    FailuresConcat(map[], first, Wrong(user, 5, later), user);
    var tail := Wrong(user, 5, later);
    assert tail[1..] == Wrong(user, 4, later);
    var r' := Judge(r, tail[0]).0;
    assert r - {user} == map[];
    assert r' == map[user := Record(1, 0.0)];
    WrongFails(r', user, 4, later);
  }

  // ----- who is locked out -----

  /** The verdict of the k-th attempt of a history. */
  function VerdictAt(attempts: seq<Attempt>, k: nat): Verdict
    requires k < |attempts|
  {
    Judge(After(map[], attempts[..k]), attempts[k]).1
  }

  ghost predicate FailsAt(attempts: seq<Attempt>, k: nat, user: string)
    requires k < |attempts|
  {
    attempts[k].user == user && VerdictAt(attempts, k) == Failed
  }

  ghost predicate SucceedsAt(attempts: seq<Attempt>, k: nat, user: string)
    requires k < |attempts|
  {
    attempts[k].user == user && VerdictAt(attempts, k) == Success
  }

  /** The user's failures since its last success, by their places in the history. */
  function Streak(attempts: seq<Attempt>, user: string): (places: seq<nat>)
    ensures forall i :: 0 <= i < |places| ==> places[i] < |attempts|
  {
    if attempts == [] then []
    else
      var last := |attempts| - 1;
      var before := Streak(attempts[..last], user);
      if attempts[last].user != user then before
      else
        match VerdictAt(attempts, last)
        case Success => []
        case Failed => before + [last]
        case Locked(_) => before
  }

  ghost predicate InStreak(attempts: seq<Attempt>, k: nat, user: string) {
    k < |attempts| && FailsAt(attempts, k, user) && forall j :: k < j < |attempts| ==> !SucceedsAt(attempts, j, user)
  }

  lemma InStreakSnoc(attempts: seq<Attempt>, k: nat, user: string)
    requires attempts != []
    ensures var last := |attempts| - 1;
            InStreak(attempts, k, user) <==>
              if k == last then FailsAt(attempts, k, user) else InStreak(attempts[..last], k, user) && !SucceedsAt(attempts, last, user)
  {
    hide VerdictAt;
    var last := |attempts| - 1;
    var before := attempts[..last];
    forall j | 0 <= j < last
      ensures VerdictAt(before, j) == VerdictAt(attempts, j)
    {
      SameVerdict(attempts, last, j);
    }
    assert forall j | 0 <= j < last :: SucceedsAt(before, j, user) <==> SucceedsAt(attempts, j, user);
  }

  lemma SameVerdict(attempts: seq<Attempt>, n: nat, j: nat)
    requires j < n <= |attempts|
    ensures VerdictAt(attempts[..n], j) == VerdictAt(attempts, j)
  {
    assert attempts[..n][..j] == attempts[..j];
  }

  /** Exactly the failures that no success follows, in their order. */
  lemma {:induction false} StreakIff(attempts: seq<Attempt>, user: string)
    ensures forall k: nat :: k in Streak(attempts, user) <==> InStreak(attempts, k, user)
    ensures forall i, j :: 0 <= i < j < |Streak(attempts, user)| ==> Streak(attempts, user)[i] < Streak(attempts, user)[j]
  {
    if attempts != [] {
      var last := |attempts| - 1;
      StreakIff(attempts[..last], user);
      hide InStreak, VerdictAt;
      var before, now := Streak(attempts[..last], user), Streak(attempts, user);
      assert last !in before;
      assert forall k: nat :: k in now <==> if k == last then FailsAt(attempts, k, user) else k in before && !SucceedsAt(attempts, last, user);
      forall k: nat
        ensures k in now <==> InStreak(attempts, k, user)
      {
        InStreakSnoc(attempts, k, user);
      }
    }
  }

  lemma {:induction false} AfterSnoc(r: Records, attempts: seq<Attempt>, a: Attempt)
    ensures After(r, attempts + [a]) == Judge(After(r, attempts), a).0
    decreases |attempts|
  {
    if attempts == [] {
      assert attempts + [a] == [a];
    } else {
      assert (attempts + [a])[1..] == attempts[1..] + [a];
      AfterSnoc(Judge(r, attempts[0]).0, attempts[1..], a);
    }
  }

  /** A record as the n-th failure of a streak leaves it, at that time. */
  ghost predicate RecordOf(r: Records, user: string, n: nat, at: real) {
    if n == 0 then user !in r
    else user in r && r[user] == Record((n - 1) % 5 + 1, if n % 5 == 0 then at + 300.0 else 0.0)
  }

  ghost function LastTime(attempts: seq<Attempt>, user: string): real {
    var places := Streak(attempts, user);
    if places == [] then 0.0 else attempts[places[|places| - 1]].end
  }

  lemma AttemptRecord(r: Records, a: Attempt, user: string, n: nat, at: real)
    requires RecordOf(r, user, n, at)
    ensures var (r', verdict) := Judge(r, a);
            if a.user != user || verdict.Locked? then RecordOf(r', user, n, at)
            else if verdict.Success? then RecordOf(r', user, 0, 0.0)
            else RecordOf(r', user, n + 1, a.end)
  {
  }

  /** What is stored is told by the failures since the last success: every fifth locks, and the
      next one after the lock has run out counts as the first. */
  lemma {:induction false} StoredIsStreak(attempts: seq<Attempt>, user: string)
    ensures RecordOf(After(map[], attempts), user, |Streak(attempts, user)|, LastTime(attempts, user))
  {
    if attempts != [] {
      var last := |attempts| - 1;
      var before, a := attempts[..last], attempts[last];
      assert attempts == before + [a];
      StoredIsStreak(before, user);
      AfterSnoc(map[], before, a);
      AttemptRecord(After(map[], before), a, user, |Streak(before, user)|, LastTime(before, user));
    }
  }

  /** In every history: an attempt is turned away exactly when the user's failures since its last
      success are five, ten, fifteen, and the last of them is less than 300 seconds old; it is told
      the whole seconds left. Any other attempt is judged by name and password alone. */
  lemma VerdictIff(attempts: seq<Attempt>, k: nat, user: string)
    requires k < |attempts| && attempts[k].user == user && attempts[k].start >= 0.0
    ensures var places, verdict := Streak(attempts[..k], user), VerdictAt(attempts, k);
            var n := |places|;
            if n > 0 && n % 5 == 0 && attempts[k].start - attempts[places[n - 1]].end < 300.0
            then verdict == Locked((attempts[places[n - 1]].end + 300.0 - attempts[k].start).Floor)
            else verdict == if attempts[k].valid then Success else Failed
  {
    StoredIsStreak(attempts[..k], user);
  }

  // ----- the manager -----

  datatype User = User(username: string, passwordHash: string)

  /** The first user of that name. */
  function FirstNamed(users: seq<User>, username: string): (user: Option<User>)
    ensures user.Some? ==> user.value in users && user.value.username == username
    ensures user.None? ==> forall u :: u in users ==> u.username != username
  {
    if users == [] then None
    else if users[0].username == username then Some(users[0])
    else FirstNamed(users[1..], username)
  }

  predicate Valid(users: seq<User>, username: string, verify: string -> bool) {
    var user := FirstNamed(users, username);
    user.Some? && verify(user.value.passwordHash)
  }

  /** An attempt is valid when the first user of that name has a hash that the password meets. */
  lemma {:induction false} ValidIff(users: seq<User>, username: string, verify: string -> bool)
    ensures Valid(users, username, verify) <==>
              exists k :: 0 <= k < |users| && users[k].username == username && verify(users[k].passwordHash)
                          && forall j :: 0 <= j < k ==> users[j].username != username
  {
    if users != [] && users[0].username != username {
      ValidIff(users[1..], username, verify);
      if Valid(users[1..], username, verify) {
        var k :| 0 <= k < |users| - 1 && users[1..][k].username == username && verify(users[1..][k].passwordHash)
                 && forall j :: 0 <= j < k ==> users[1..][j].username != username;
        assert users[k + 1].username == username && verify(users[k + 1].passwordHash);
        assert forall j :: 0 < j < k + 1 ==> users[j] == users[1..][j - 1];
      }
      if k :| 0 <= k < |users| && users[k].username == username && verify(users[k].passwordHash)
              && forall j :: 0 <= j < k ==> users[j].username != username {
        assert users[1..][k - 1] == users[k];
        assert forall j :: 0 <= j < k - 1 ==> users[1..][j] == users[j + 1];
      }
    }
  }

  class AuthManager {
    var users: seq<User>
    var failRecords: Records

    constructor (users: seq<User>)
      ensures this.users == users && failRecords == map[]
    {
      this.users, failRecords := users, map[];
    }

    method FindUser(username: string) returns (user: Option<User>)
      ensures user == FirstNamed(users, username)
    {
      for i := 0 to |users|
        invariant FirstNamed(users, username) == FirstNamed(users[i..], username)
      {
        if users[i].username == username {
          return Some(users[i]);
        }
      }
      return None;
    }

    method Check(username: string, now: real) returns (remaining: Option<int>)
      modifies this`failRecords
      ensures (failRecords, remaining) == CheckLocked(old(failRecords), username, now)
    {
      if username !in failRecords {
        return None;
      }
      var record := failRecords[username];
      if record.lockUntil > now {
        return Some((record.lockUntil - now).Floor);
      }
      if record.count >= MAX_FAIL_COUNT {
        failRecords := failRecords - {username};
      }
      return None;
    }

    method Fail(username: string, now: real)
      modifies this`failRecords
      ensures failRecords == RecordFail(old(failRecords), username, now)
    {
      if username !in failRecords {
        failRecords := failRecords[username := Record(0, 0.0)];
      }
      var record := failRecords[username];
      record := record.(count := record.count + 1);
      if record.count >= MAX_FAIL_COUNT {
        record := record.(lockUntil := now + LOCK_SECONDS);
      }
      failRecords := failRecords[username := record];
    }

    /** `verify` stands for bcrypt against a stored hash; `start` and `end` are the clock at
        the check and at the recording of a failure. */
    method Authenticate(username: string, verify: string -> bool, start: real, end: real) returns (verdict: Verdict)
      modifies this`failRecords
      ensures (failRecords, verdict) == Judge(old(failRecords), Attempt(username, Valid(users, username, verify), start, end))
    {
      var remaining := Check(username, start);
      if remaining.Some? {
        return Locked(remaining.value);
      }
      var user := FindUser(username);
      if user.None? {
        Fail(username, end);
        return Failed;
      }
      if !verify(user.value.passwordHash) {
        Fail(username, end);
        return Failed;
      }
      failRecords := failRecords - {username};
      return Success;
    }
  }
}
