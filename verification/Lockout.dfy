/** Account lockout: five wrong passwords close an account for a quarter of an hour, and each further wrong
  one after that closes it again. */
module Lockout {
  import opened Options

  const LOCK_SECONDS := 15.0 * 60.0
  const MAX_ATTEMPTS := 5

  datatype Account = Account(failedAttempts: nat, lockedUntil: Option<real>)

  const FRESH := Account(0, None)

  datatype Verdict = UnknownUser | LockedOut | WrongPassword | SignedIn

  function Check(a: Account, correct: bool, now: real): (Account, Verdict) {
    if a.lockedUntil.Some? && a.lockedUntil.value > now then (a, LockedOut)
    else if correct then (FRESH, SignedIn)
    else
      var n := a.failedAttempts + 1;
      (Account(n, if n >= MAX_ATTEMPTS then Some(now + LOCK_SECONDS) else a.lockedUntil), WrongPassword)
  }

  class UserService {
    var accounts: map<string, Account>

    constructor ()
      ensures accounts == map[]
    {
      accounts := map[];
    }

    // `correct` is the verdict of the password hash.
    method Authenticate(email: string, correct: bool, now: real) returns (verdict: Verdict)
      modifies this
      ensures email !in old(accounts) ==> verdict == UnknownUser && accounts == old(accounts)
      ensures email in old(accounts) ==>
        var (a, v) := Check(old(accounts)[email], correct, now);
        verdict == v && accounts == old(accounts)[email := a]
    {
      if email !in accounts { return UnknownUser; }
      var user := accounts[email];
      if user.lockedUntil.Some? && user.lockedUntil.value > now {
        assert accounts[email := user] == accounts;
        return LockedOut;
      }
      if !correct {
        user := user.(failedAttempts := user.failedAttempts + 1);
        if user.failedAttempts >= 5 {
          user := user.(lockedUntil := Some(now + LOCK_SECONDS));
        }
        accounts := accounts[email := user];
        return WrongPassword;
      }
      accounts := accounts[email := user.(failedAttempts := 0, lockedUntil := None)];
      return SignedIn;
    }
  }

  // ---------------------------------------------------------------------------------------------
  // Every run of one account

  datatype Attempt = Attempt(at: real, correct: bool)

  // `wrong` holds the times of the wrong-password checks since the last success.
  datatype History = History(account: Account, wrong: seq<real>)

  function Observe(h: History, x: Attempt): History {
    var (a, v) := Check(h.account, x.correct, x.at);
    match v
    case WrongPassword => History(a, h.wrong + [x.at])
    case SignedIn => History(a, [])
    case _ => History(a, h.wrong)
  }

  function Run(xs: seq<Attempt>): History {
    if xs == [] then History(FRESH, []) else Observe(Run(xs[..|xs| - 1]), xs[|xs| - 1])
  }

  predicate Inv(h: History) {
    && h.account.failedAttempts == |h.wrong|
    && (h.account.lockedUntil.Some? <==> |h.wrong| >= 5)
    && (h.account.lockedUntil.Some? ==> h.account.lockedUntil.value == h.wrong[|h.wrong| - 1] + 900.0)
    && forall k :: 5 <= k < |h.wrong| ==> h.wrong[k - 1] + 900.0 <= h.wrong[k]
  }

  /** The counter is the number of wrong checks since the last success, and the lock is set exactly from the
    fifth on, running from the last of them. The clock may do as it likes. */
  lemma {:induction false} RunInv(xs: seq<Attempt>)
    ensures Inv(Run(xs))
  {
    if xs != [] {
      RunInv(xs[..|xs| - 1]);
    }
  }

  /** Between successes the k-th wrong check comes no earlier than (k − 5) quarters of an hour after the fifth
    (counting from one). */
  lemma {:induction false} GuessesAreSlowed(xs: seq<Attempt>, k: nat)
    requires 5 <= k <= |Run(xs).wrong|
    ensures Run(xs).wrong[4] + 900.0 * (k - 5) as real <= Run(xs).wrong[k - 1]
  {
    RunInv(xs);
    if k > 5 {
      GuessesAreSlowed(xs, k - 1);
    }
  }

  /** A password is refused unread exactly while the lock of the last wrong check runs; at any other time a correct
    one, and only a correct one, signs in and clears everything, and a wrong one is counted. */
  lemma RefusedOnlyWhileLocked(xs: seq<Attempt>, x: Attempt)
    ensures Check(Run(xs).account, x.correct, x.at).1 == LockedOut <==>
      |Run(xs).wrong| >= 5 && x.at < Run(xs).wrong[|Run(xs).wrong| - 1] + 900.0
    ensures Check(Run(xs).account, x.correct, x.at).1 == SignedIn <==>
      x.correct && (|Run(xs).wrong| >= 5 ==> Run(xs).wrong[|Run(xs).wrong| - 1] + 900.0 <= x.at)
    ensures Check(Run(xs).account, x.correct, x.at).1 == WrongPassword <==>
      !x.correct && (|Run(xs).wrong| >= 5 ==> Run(xs).wrong[|Run(xs).wrong| - 1] + 900.0 <= x.at)
    ensures Check(Run(xs).account, x.correct, x.at).1 == WrongPassword ==>
      Observe(Run(xs), x).wrong == Run(xs).wrong + [x.at]
    ensures Check(Run(xs).account, x.correct, x.at).1 == LockedOut ==> Observe(Run(xs), x) == Run(xs)
    ensures x.correct && Check(Run(xs).account, x.correct, x.at).1 != LockedOut ==>
      Observe(Run(xs), x) == History(FRESH, [])
  {
    RunInv(xs);
  }
}
