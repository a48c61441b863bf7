/**
 * The control flow of `take_fullpage_screenshot`: a counted loop of at most
 * `RETRY_COUNT` attempts. What the browser does in an attempt is outside the
 * model; only the attempt's outcome matters, and it is an input.
 */
module Capture {

  /**
   * How one attempt (navigate, dismiss the cookie banner, scroll, capture,
   * write the file) ends: it returns normally, raises `WebDriverException`,
   * or raises any other exception.
   */
  datatype Attempt = Succeeded | DriverError | OtherError

  /**
   * The attempt outcomes of a run: the outcome of attempt number `n` of
   * the capture of `url` into `outputPath`.
   */
  type Browser = (string, string, nat) -> Attempt

  /**
   * How a call ends: it returns `True` or `False`, or an exception other
   * than `WebDriverException` escapes it.
   */
  datatype CaptureOutcome = Returned(ok: bool) | Raised

  /** Attempts `from` .. `retryCount`, each started after the previous one raised `WebDriverException`. */
  function CaptureFrom(browser: Browser, url: string, outputPath: string, from: nat, retryCount: nat): CaptureOutcome
    decreases retryCount + 1 - from
  {
    if from == 0 || from > retryCount then Returned(false)
    else match browser(url, outputPath, from)
      case Succeeded => Returned(true)
      case OtherError => Raised
      case DriverError => CaptureFrom(browser, url, outputPath, from + 1, retryCount)
  }

  /** The outcome of a call that makes attempts 1 .. `retryCount`. */
  function CaptureSpec(browser: Browser, url: string, outputPath: string, retryCount: nat): CaptureOutcome
  {
    CaptureFrom(browser, url, outputPath, 1, retryCount)
  }

  /** Attempts `lo` .. `hi - 1` all raised `WebDriverException`. */
  predicate DriverErrorsBetween(browser: Browser, url: string, outputPath: string, lo: nat, hi: nat)
  {
    forall j :: lo <= j < hi ==> browser(url, outputPath, j) == DriverError
  }

  /** Attempts 1 .. `n - 1` all raised `WebDriverException`. */
  predicate DriverErrorsBefore(browser: Browser, url: string, outputPath: string, n: nat)
  {
    DriverErrorsBetween(browser, url, outputPath, 1, n)
  }

  /** Attempt `n` of the window `lo` .. `hi` is the first one that does not raise `WebDriverException`, and ends with `a`. */
  predicate DecidedBy(browser: Browser, url: string, outputPath: string, lo: nat, hi: nat, n: nat, a: Attempt)
  {
    lo <= n <= hi && browser(url, outputPath, n) == a && DriverErrorsBetween(browser, url, outputPath, lo, n)
  }

  /**
   * The outcome is decided by the first attempt that does not raise
   * `WebDriverException`: success returns `True`, any other exception
   * escapes, and when every one of the `retryCount` attempts raised
   * `WebDriverException` the call returns `False`.
   */
  lemma CaptureSpecDecided(browser: Browser, url: string, outputPath: string, retryCount: nat)
    ensures (CaptureSpec(browser, url, outputPath, retryCount) == Returned(false))
              == DriverErrorsBefore(browser, url, outputPath, retryCount + 1)
    ensures (CaptureSpec(browser, url, outputPath, retryCount) == Returned(true))
              == exists n :: DecidedBy(browser, url, outputPath, 1, retryCount, n, Succeeded)
    ensures (CaptureSpec(browser, url, outputPath, retryCount) == Raised)
              == exists n :: DecidedBy(browser, url, outputPath, 1, retryCount, n, OtherError)
  {
    CaptureFromDecided(browser, url, outputPath, 1, retryCount);
  }

  lemma {:induction false} CaptureFromDecided(browser: Browser, url: string, outputPath: string, from: nat, retryCount: nat)
    requires 1 <= from
    ensures (CaptureFrom(browser, url, outputPath, from, retryCount) == Returned(false))
              == DriverErrorsBetween(browser, url, outputPath, from, retryCount + 1)
    ensures (CaptureFrom(browser, url, outputPath, from, retryCount) == Returned(true))
              == exists n :: DecidedBy(browser, url, outputPath, from, retryCount, n, Succeeded)
    ensures (CaptureFrom(browser, url, outputPath, from, retryCount) == Raised)
              == exists n :: DecidedBy(browser, url, outputPath, from, retryCount, n, OtherError)
    decreases retryCount + 1 - from
  {
    if from <= retryCount {
      CaptureFromDecided(browser, url, outputPath, from + 1, retryCount);
      var here := browser(url, outputPath, from);
      forall n, a | a != DriverError
        ensures DecidedBy(browser, url, outputPath, from, retryCount, n, a)
                == (if here == DriverError then DecidedBy(browser, url, outputPath, from + 1, retryCount, n, a)
                    else n == from && here == a)
      {
        if DecidedBy(browser, url, outputPath, from, retryCount, n, a) && n != from {
          assert browser(url, outputPath, from) == DriverError;
        }
      }
      match here
      case DriverError =>
        DecidedShifts(browser, url, outputPath, from, from + 1, retryCount, Succeeded);
        DecidedShifts(browser, url, outputPath, from, from + 1, retryCount, OtherError);
      case Succeeded =>
        assert DecidedBy(browser, url, outputPath, from, retryCount, from, Succeeded);
      case OtherError =>
        assert DecidedBy(browser, url, outputPath, from, retryCount, from, OtherError);
    }
  }

  /** After a `WebDriverException` at attempt `from`, the deciding attempt is the one that decides the rest. */
  lemma DecidedShifts(browser: Browser, url: string, outputPath: string, from: nat, next: nat, retryCount: nat, a: Attempt)
    requires from <= retryCount && next == from + 1
    requires browser(url, outputPath, from) == DriverError && a != DriverError
    ensures (exists n :: DecidedBy(browser, url, outputPath, from, retryCount, n, a))
            == (exists n :: DecidedBy(browser, url, outputPath, next, retryCount, n, a))
  {
    if n :| DecidedBy(browser, url, outputPath, from, retryCount, n, a) {
      assert DecidedBy(browser, url, outputPath, next, retryCount, n, a);
    }
    if n :| DecidedBy(browser, url, outputPath, next, retryCount, n, a) {
      assert DecidedBy(browser, url, outputPath, from, retryCount, n, a);
    }
  }

  /**
   * `take_fullpage_screenshot(url, output_path)`. Returns how the call ends
   * and how many attempts it started (the `[attempt/RETRY_COUNT]` log lines).
   */
  method TakeFullpageScreenshot(browser: Browser, url: string, outputPath: string, retryCount: nat)
    returns (outcome: CaptureOutcome, attempts: nat)
    ensures outcome == CaptureSpec(browser, url, outputPath, retryCount)
    ensures attempts <= retryCount
    ensures DriverErrorsBefore(browser, url, outputPath, attempts)
    ensures outcome == Returned(true) ==> attempts >= 1 && browser(url, outputPath, attempts) == Succeeded
    ensures outcome == Raised ==> attempts >= 1 && browser(url, outputPath, attempts) == OtherError
    ensures outcome == Returned(false) ==>
              attempts == retryCount && DriverErrorsBefore(browser, url, outputPath, retryCount + 1)
  {
    for attempt := 1 to retryCount + 1
      invariant DriverErrorsBefore(browser, url, outputPath, attempt)
      invariant CaptureSpec(browser, url, outputPath, retryCount)
                  == CaptureFrom(browser, url, outputPath, attempt, retryCount)
    {
      match browser(url, outputPath, attempt)
      case Succeeded =>
        return Returned(true), attempt;
      case OtherError =>
        return Raised, attempt;
      case DriverError =>
    }
    return Returned(false), retryCount;
  }
}
