/**
 * The login state machine of main.py:320-410, with the Steam client
 * replaced by its answers: the result of `relogin`, the result of the k-th
 * password login, and the result of the interactive login. Sleeps are
 * recorded, not performed.
 */
module Login {
  import opened Steam

  /** The backoff waits 1, 2, ..., m of m successive rate-limited retries. */
  function Ramp(m: nat): (r: seq<nat>)
    ensures |r| == m
    ensures forall i :: 0 <= i < m ==> r[i] == i + 1
  {
    seq(m, i => i + 1)
  }

  lemma RampSnoc(m: nat)
    ensures Ramp(m + 1) == Ramp(m) + [m + 1]
  {
    assert forall i :: 0 <= i < m ==> Ramp(m + 1)[i] == Ramp(m)[i];
  }

  /** 1 when `relogin` failed and a password login follows it, else 0. */
  function FirstLogins(relogin: EResult): nat
  {
    if relogin == OK then 0 else 1
  }

  /** How the login loop ends: the final result, whether the account is
      disabled, how many password and interactive logins were made, and how
      many iterations ran to their end. */
  datatype Verdict = Verdict(result: EResult, disabled: bool, passwordCalls: nat, cliCalls: nat, iterations: nat)

  /**
   * The loop from a state where `result` is the current result, `k` password
   * logins have been made, `count` retries are left and `iterations` have
   * run: it stops on OK or an empty budget; in CLI mode the interactive
   * login decides; a rate-limited result is retried with the next password
   * login; a disqualifying one disables the account; any other failure only
   * uses up a retry.
   */
  function LoopVerdict(result: EResult, passwordLogin: nat -> EResult, cliLogin: EResult, cli: bool,
                       k: nat, count: nat, iterations: nat): Verdict
    decreases count
  {
    if result == OK || count == 0 then Verdict(result, false, k, 0, iterations)
    else if cli then Verdict(cliLogin, false, k, 1, iterations)
    else if result == RateLimitExceeded then LoopVerdict(passwordLogin(k), passwordLogin, cliLogin, cli, k + 1, count - 1, iterations + 1)
    else if IsDisqualifying(result) then Verdict(result, true, k, 0, iterations)
    else LoopVerdict(result, passwordLogin, cliLogin, cli, k, count - 1, iterations + 1)
  }

  /** The verdict of `login`: a successful relogin ends it at once;
      otherwise one password login is made and the loop runs with the full
      retry budget. */
  function LoginVerdict(relogin: EResult, passwordLogin: nat -> EResult, cliLogin: EResult, cli: bool, retryNum: nat): Verdict
  {
    if relogin == OK then Verdict(OK, false, 0, 0, 0)
    else LoopVerdict(passwordLogin(0), passwordLogin, cliLogin, cli, 1, retryNum, 0)
  }

  /**
   * What the loop guarantees from a state reached by password logins that
   * were all rate limited but the last: it runs at most `count` more
   * iterations; every password login but the last was rate limited and the
   * last one gives the result unless the interactive login decided; a
   * rate-limited result at the end means the budget ran out on rate limits;
   * the account is disabled exactly when the loop stopped on a
   * disqualifying result with retries left.
   */
  lemma {:induction false} LoopVerdictFacts(result: EResult, passwordLogin: nat -> EResult, cliLogin: EResult, cli: bool,
                                           k: nat, count: nat, iterations: nat)
    requires k >= 1 && result == passwordLogin(k - 1)
    requires forall j :: 0 <= j < k - 1 ==> passwordLogin(j) == RateLimitExceeded
    ensures var v := LoopVerdict(result, passwordLogin, cliLogin, cli, k, count, iterations);
      && iterations <= v.iterations <= iterations + count
      && k <= v.passwordCalls <= k + (v.iterations - iterations)
      && (forall j :: 0 <= j < v.passwordCalls - 1 ==> passwordLogin(j) == RateLimitExceeded)
      && (v.cliCalls == 0 ==> v.result == passwordLogin(v.passwordCalls - 1))
      && v.cliCalls <= 1 && (!cli ==> v.cliCalls == 0)
      && (v.cliCalls == 1 ==> v.result == cliLogin && v.iterations == iterations && v.passwordCalls == k)
      && (cli && count > 0 && result != OK ==> v.cliCalls == 1)
      && (result != RateLimitExceeded && v.cliCalls == 0 ==> v.result == result && v.passwordCalls == k)
      && (v.result == RateLimitExceeded && v.cliCalls == 0 ==> v.iterations == iterations + count && v.passwordCalls == k + count)
      && (v.disabled <==> IsDisqualifying(v.result) && v.cliCalls == 0 && v.iterations < iterations + count)
      && (v.result == OK || v.disabled || v.cliCalls == 1 || v.iterations == iterations + count)
    decreases count
  {
    if result != OK && count != 0 && !cli {
      if result == RateLimitExceeded {
        LoopVerdictFacts(passwordLogin(k), passwordLogin, cliLogin, cli, k + 1, count - 1, iterations + 1);
      } else if !IsDisqualifying(result) {
        LoopVerdictFacts(result, passwordLogin, cliLogin, cli, k, count - 1, iterations + 1);
      }
    }
  }

  /**
   * The properties of `login` (main.py:345-410): a successful relogin ends
   * it with no password login; otherwise at most `1 + retryNum` password
   * logins are made, all rate limited but the last, which gives the result;
   * in CLI mode one failed password login is followed by the interactive
   * one, whose result is final; the account is disabled exactly on a
   * disqualifying result with retries left; otherwise the loop ends on OK,
   * or when the budget runs out.
   */
  lemma LoginVerdictFacts(relogin: EResult, passwordLogin: nat -> EResult, cliLogin: EResult, cli: bool, retryNum: nat)
    ensures var v := LoginVerdict(relogin, passwordLogin, cliLogin, cli, retryNum);
      && v.iterations <= retryNum
      && FirstLogins(relogin) <= v.passwordCalls <= FirstLogins(relogin) + v.iterations
      && (v.passwordCalls == 0 <==> relogin == OK)
      && (relogin == OK ==> v.result == OK && !v.disabled && v.cliCalls == 0)
      && (forall j :: 0 <= j < v.passwordCalls - 1 ==> passwordLogin(j) == RateLimitExceeded)
      && (v.cliCalls == 0 && v.passwordCalls > 0 ==> v.result == passwordLogin(v.passwordCalls - 1))
      && v.cliCalls <= 1 && (!cli ==> v.cliCalls == 0)
      && (v.cliCalls == 1 ==> v.result == cliLogin && v.iterations == 0 && v.passwordCalls == 1)
      && (cli && retryNum > 0 && relogin != OK && passwordLogin(0) != OK ==> v.cliCalls == 1)
      && (v.disabled <==> IsDisqualifying(v.result) && v.cliCalls == 0 && v.iterations < retryNum)
      && (v.result == RateLimitExceeded && v.cliCalls == 0 ==>
            v.iterations == retryNum && v.passwordCalls == FirstLogins(relogin) + retryNum)
      && (v.result == OK || v.disabled || v.cliCalls == 1 || v.iterations == retryNum)
  {
    if relogin != OK {
      LoopVerdictFacts(passwordLogin(0), passwordLogin, cliLogin, cli, 1, retryNum, 0);
    }
  }

  /** A failed relogin, a rate-limited password login and then a successful
      one: the login succeeds after two password logins and one retry. */
  lemma RateLimitedThenOk(passwordLogin: nat -> EResult, cliLogin: EResult, retryNum: nat)
    requires passwordLogin(0) == RateLimitExceeded && passwordLogin(1) == OK && retryNum >= 1
    ensures LoginVerdict(Fail, passwordLogin, cliLogin, false, retryNum) == Verdict(OK, false, 2, 0, 1)
  {
    assert LoopVerdict(OK, passwordLogin, cliLogin, false, 2, retryNum - 1, 1) == Verdict(OK, false, 2, 0, 1);
  }

  /**
   * The `while` loop of main.py:369-396 from the result of the first
   * password login, `k` of them made so far: the loop ends as `LoopVerdict`
   * says, and each rate-limited retry sleeps one second longer than the
   * previous one, starting at 1.
   */
  method RetryLogins(first: EResult, passwordLogin: nat -> EResult, cliLogin: EResult, cli: bool, k: nat, retryNum: nat)
    returns (result: EResult, disabled: bool, passwordCalls: nat, cliCalls: nat, sleeps: seq<nat>, iterations: nat)
    ensures Verdict(result, disabled, passwordCalls, cliCalls, iterations) == LoopVerdict(first, passwordLogin, cliLogin, cli, k, retryNum, 0)
    ensures k <= passwordCalls && sleeps == Ramp(passwordCalls - k)
  {
    result := first;
    disabled := false;
    passwordCalls := k;
    cliCalls := 0;
    sleeps := [];
    var wait: nat := 1;
    var count := retryNum;
    iterations := 0;
    while result != OK && count != 0
      invariant count == retryNum - iterations
      invariant wait == 1 + iterations
      invariant k <= passwordCalls
      invariant result == RateLimitExceeded ==> passwordCalls == k + iterations
      invariant sleeps == Ramp(passwordCalls - k)
      invariant cliCalls == 0 && !disabled
      invariant LoopVerdict(first, passwordLogin, cliLogin, cli, k, retryNum, 0)
                == LoopVerdict(result, passwordLogin, cliLogin, cli, passwordCalls, count, iterations)
    {
      if cli {
        result := cliLogin;
        cliCalls := 1;
        break;
      } else if result == RateLimitExceeded {
        RampSnoc(passwordCalls - k);
        sleeps := sleeps + [wait];
        result := passwordLogin(passwordCalls);
        passwordCalls := passwordCalls + 1;
      } else if IsDisqualifying(result) {
        disabled := true;
        break;
      }
      wait := wait + 1;
      count := count - 1;
      iterations := iterations + 1;
    }
  }

  /**
   * Runs the login loop. Returns the final result, whether the account is
   * to be disabled, how many password logins and interactive logins were
   * made, the lengths of the sleeps in order, and how many loop iterations
   * ran to their end (each one costs a unit of the retry budget).
   */
  method LoginAttempts(relogin: EResult, passwordLogin: nat -> EResult, cliLogin: EResult,
                       cli: bool, retryNum: nat)
    returns (result: EResult, disabled: bool, passwordCalls: nat, cliCalls: nat,
             sleeps: seq<nat>, iterations: nat)
    // bounded: the loop runs at most retryNum times, one relogin then at most 1 + retryNum password logins
    ensures iterations <= retryNum
    ensures FirstLogins(relogin) <= passwordCalls <= FirstLogins(relogin) + iterations
    ensures passwordCalls <= 1 + retryNum
    // relogin first; a successful relogin ends everything
    ensures passwordCalls == 0 <==> relogin == OK
    ensures relogin == OK ==> result == OK && sleeps == [] && !disabled && cliCalls == 0
    // every password login but the last was rate limited, and the last one gave the result
    ensures forall k :: 0 <= k < passwordCalls - 1 ==> passwordLogin(k) == RateLimitExceeded
    ensures cliCalls == 0 && passwordCalls > 0 ==> result == passwordLogin(passwordCalls - 1)
    // the waits: 1 after a rate-limited relogin, then 1, 2, 3, ... one per retried login
    ensures sleeps == (if relogin == RateLimitExceeded then [1] else []) + Ramp(passwordCalls - FirstLogins(relogin))
    // at most one interactive login, only in CLI mode, and its result is final
    ensures cliCalls <= 1
    ensures !cli ==> cliCalls == 0
    ensures cliCalls == 1 ==> result == cliLogin && iterations == 0 && passwordCalls == 1
    ensures cli && retryNum > 0 && relogin != OK && passwordLogin(0) != OK ==> cliCalls == 1
    // disqualifying results disable the account and stop the loop
    ensures disabled ==> cliCalls == 0 && IsDisqualifying(result) && iterations < retryNum
    // why the loop stopped
    ensures result == OK || disabled || cliCalls == 1 || iterations == retryNum
    ensures disabled <==> IsDisqualifying(result) && cliCalls == 0 && iterations < retryNum
    ensures result == RateLimitExceeded && cliCalls == 0 ==> iterations == retryNum && passwordCalls == FirstLogins(relogin) + retryNum
    // the loop ends as the reference verdict says
    ensures Verdict(result, disabled, passwordCalls, cliCalls, iterations) == LoginVerdict(relogin, passwordLogin, cliLogin, cli, retryNum)
  {
    var first: seq<nat> := [];
    var current := relogin;
    var k := 0;
    if relogin != OK {
      if relogin == RateLimitExceeded {
        first := [1];
      }
      current := passwordLogin(0);
      k := 1;
    }
    var loopSleeps;
    result, disabled, passwordCalls, cliCalls, loopSleeps, iterations := RetryLogins(current, passwordLogin, cliLogin, cli, k, retryNum);
    sleeps := first + loopSleeps;
    LoginVerdictFacts(relogin, passwordLogin, cliLogin, cli, retryNum);
  }
}
