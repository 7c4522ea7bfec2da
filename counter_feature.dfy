/**
 The counter screen's model, `CounterModel` in ObservationUIKit/CounterFeature.swift.

 The model holds a count, an optional fact about that count and a loading flag.
 Increment and decrement change the count and clear the fact. Fetching a fact
 clears it, raises the loading flag, waits, asks a web service about the
 current count and shows the answer; the loading flag is lowered on every way
 out. The suspended part of the fetch (the one-second sleep and the network
 call) is an outcome passed in by the caller, so the fetch is two phases:
 `BeginFact` before the first suspension and `CompleteFact` after the last.
 */
module CounterFeature {
  import opened Wrappers

  /** Swift's `Int` on a 64-bit platform. Arithmetic that leaves it traps. */
  newtype Int = x: int | -0x8000_0000_0000_0000 <= x < 0x8000_0000_0000_0000

  const MinInt: Int := -0x8000_0000_0000_0000
  const MaxInt: Int := 0x7fff_ffff_ffff_ffff

  /** The three stored properties of a `CounterModel`, as one value. */
  datatype Counter = Counter(count: Int, fact: Option<string>, factIsLoading: bool)

  /** A freshly constructed model. */
  const Initial: Counter := Counter(0, None, false)

  // ---------------------------------------------------------------------------
  // Increment and decrement

  /** `incrementButtonTapped`: `count += 1` (which traps at `Int.max`), then `fact = nil`. */
  function Increment(c: Counter): (r: Counter)
    requires c.count < MaxInt
    ensures r.count as int == c.count as int + 1
    ensures r.fact == None
    ensures r.factIsLoading == c.factIsLoading
  {
    c.(count := c.count + 1, fact := None)
  }

  /** `decrementButtonTapped`: `count -= 1` (which traps at `Int.min`), then `fact = nil`. */
  function Decrement(c: Counter): (r: Counter)
    requires MinInt < c.count
    ensures r.count as int == c.count as int - 1
    ensures r.fact == None
    ensures r.factIsLoading == c.factIsLoading
  {
    c.(count := c.count - 1, fact := None)
  }

  /** An increment undone by a decrement leaves the model as it was, except that the fact is gone. */
  lemma IncrementThenDecrement(c: Counter)
    requires c.count < MaxInt
    ensures Decrement(Increment(c)) == c.(fact := None)
  {
  }

  /** A decrement undone by an increment leaves the model as it was, except that the fact is gone. */
  lemma DecrementThenIncrement(c: Counter)
    requires MinInt < c.count
    ensures Increment(Decrement(c)) == c.(fact := None)
  {
  }

  /** One tap on the increment or the decrement button. */
  datatype Tap = IncrementTap | DecrementTap

  /** How much one tap moves the count. */
  function Delta(t: Tap): int
  {
    match t
    case IncrementTap => 1
    case DecrementTap => -1
  }

  /** The net change a sequence of taps asks for: the number of increments minus the number of decrements. */
  function Net(taps: seq<Tap>): int
  {
    if taps == [] then 0 else Delta(taps[0]) + Net(taps[1..])
  }

  /** One tap, or `None` when its arithmetic would trap. */
  function ApplyTap(c: Counter, t: Tap): (r: Option<Counter>)
    ensures r.Some? <==> MinInt as int <= c.count as int + Delta(t) <= MaxInt as int
    ensures r.Some? ==> r.value.count as int == c.count as int + Delta(t)
    ensures r.Some? ==> r.value.fact == None && r.value.factIsLoading == c.factIsLoading
  {
    match t
    case IncrementTap => if c.count < MaxInt then Some(Increment(c)) else None
    case DecrementTap => if MinInt < c.count then Some(Decrement(c)) else None
  }

  /** A sequence of taps, in order; `None` when one of them traps. */
  function Run(c: Counter, taps: seq<Tap>): (r: Option<Counter>)
    ensures r.Some? ==> r.value.factIsLoading == c.factIsLoading
    ensures r.Some? && taps != [] ==> r.value.fact == None
    decreases |taps|
  {
    if taps == [] then Some(c)
    else
      match ApplyTap(c, taps[0])
      case None => None
      case Some(next) => Run(next, taps[1..])
  }

  /** Every running total of `taps`, starting from `start`, fits in an `Int`. */
  ghost predicate StaysInRange(start: int, taps: seq<Tap>)
  {
    forall k | 0 <= k <= |taps| :: MinInt as int <= start + Net(taps[..k]) <= MaxInt as int
  }

  /**
   After any sequence of taps that does not trap, the count has moved by exactly
   the net number of increments, the loading flag is untouched, and the fact is
   gone as soon as there was at least one tap.
   */
  lemma {:induction false} RunCount(c: Counter, taps: seq<Tap>)
    ensures Run(c, taps).Some? ==>
      && Run(c, taps).value.count as int == c.count as int + Net(taps)
      && Run(c, taps).value.factIsLoading == c.factIsLoading
      && (taps != [] ==> Run(c, taps).value.fact == None)
    decreases |taps|
  {
    if taps != [] {
      match ApplyTap(c, taps[0])
      case None =>
      case Some(next) =>
        RunCount(next, taps[1..]);
    }
  }

  /** A sequence of taps traps exactly when one of its running totals leaves the range of `Int`. */
  lemma {:induction false} RunTrapsExactly(c: Counter, taps: seq<Tap>)
    ensures Run(c, taps).Some? <==> StaysInRange(c.count as int, taps)
    decreases |taps|
  {
    if taps != [] {
      var start := c.count as int;
      var rest := taps[1..];
      var moved := start + Delta(taps[0]);
      assert taps[..1] == [taps[0]];
      assert Net(taps[..1]) == Delta(taps[0]) by {
        assert taps[..1][1..] == [];
      }
      forall k | 1 <= k <= |taps|
        ensures start + Net(taps[..k]) == moved + Net(rest[..k - 1])
      {
        assert taps[..k][0] == taps[0];
        assert taps[..k][1..] == rest[..k - 1];
      }
      match ApplyTap(c, taps[0])
      case None =>
        assert !(MinInt as int <= start + Net(taps[..1]) <= MaxInt as int);
      case Some(next) =>
        assert next.count as int == moved;
        RunTrapsExactly(next, rest);
        if StaysInRange(moved, rest) {
          forall k | 0 <= k <= |taps|
            ensures MinInt as int <= start + Net(taps[..k]) <= MaxInt as int
          {
            if k == 0 {
              assert taps[..0] == [];
            } else {
              assert MinInt as int <= moved + Net(rest[..k - 1]) <= MaxInt as int;
            }
          }
        }
        if StaysInRange(start, taps) {
          forall j | 0 <= j <= |rest|
            ensures MinInt as int <= moved + Net(rest[..j]) <= MaxInt as int
          {
            assert MinInt as int <= start + Net(taps[..j + 1]) <= MaxInt as int;
          }
        }
    }
  }

  // ---------------------------------------------------------------------------
  // The fact request

  /** The fixed prefix of the fact service's address. */
  const FactService: string := "http://numberapi.com/"

  /** The decimal digit for `d`. */
  function DigitChar(d: nat): (ch: char)
    requires d < 10
    ensures '0' <= ch <= '9'
  {
    ('0' as int + d) as char
  }

  /** The decimal digits of `n`, most significant first, without leading zeros. */
  function Digits(n: nat): (s: string)
    ensures |s| >= 1
    ensures forall i | 0 <= i < |s| :: '0' <= s[i] <= '9'
    ensures s[0] == '0' ==> n == 0
    decreases n
  {
    if n < 10 then [DigitChar(n)] else Digits(n / 10) + [DigitChar(n % 10)]
  }

  /** Swift's text for an integer, as string interpolation writes it: a minus sign for negatives, then the digits. */
  function Decimal(n: int): (s: string)
    ensures |s| >= 1
    ensures s[0] == '-' <==> n < 0
    ensures n < 0 ==> |s| >= 2 && s[1] != '0'
    ensures n > 0 ==> s[0] != '0'
    ensures n == 0 ==> s == "0"
    ensures forall i | (if n < 0 then 1 else 0) <= i < |s| :: '0' <= s[i] <= '9'
  {
    if n < 0 then "-" + Digits(-n) else Digits(n)
  }

  /** The number a string of decimal digits stands for. */
  function DigitsValue(s: string): int
  {
    if s == [] then 0 else 10 * DigitsValue(s[..|s| - 1]) + (s[|s| - 1] as int - '0' as int)
  }

  /** Reads back what `Decimal` writes. */
  function ParseDecimal(s: string): int
  {
    if |s| > 0 && s[0] == '-' then -DigitsValue(s[1..]) else DigitsValue(s)
  }

  lemma {:induction false} DigitsRoundTrip(n: nat)
    ensures DigitsValue(Digits(n)) == n
    decreases n
  {
    if n >= 10 {
      var s := Digits(n);
      assert s[..|s| - 1] == Digits(n / 10);
      DigitsRoundTrip(n / 10);
    }
  }

  /** The text written for a count reads back as that count. */
  lemma DecimalRoundTrip(n: int)
    ensures ParseDecimal(Decimal(n)) == n
  {
    if n < 0 {
      DigitsRoundTrip(-n);
      assert Decimal(n)[1..] == Digits(-n);
    } else {
      DigitsRoundTrip(n);
    }
  }

  /** The address asked for the fact about `n`: `http://numberapi.com/` followed by `n` in decimal. */
  function FactUrl(n: Int): (url: string)
    ensures |url| > |FactService| && url[..|FactService|] == FactService
    ensures url[|FactService|..] == Decimal(n as int)
  {
    FactService + Decimal(n as int)
  }

  /** Different counts ask different questions: the address determines the count it was built from. */
  lemma FactUrlInjective(m: Int, n: Int)
    requires FactUrl(m) == FactUrl(n)
    ensures m == n
  {
    assert FactUrl(m)[|FactService|..] == Decimal(m as int);
    assert FactUrl(n)[|FactService|..] == Decimal(n as int);
    DecimalRoundTrip(m as int);
    DecimalRoundTrip(n as int);
  }

  // ---------------------------------------------------------------------------
  // Fetching a fact

  /**
   How the suspended part of `factButtonTapped` ends: with the decoded body of
   the response, or with an error thrown by the sleep or by the network call.
   */
  datatype FetchOutcome = Loaded(text: string) | Failed

  /** The first phase of `factButtonTapped`, before the first suspension: clear the fact, raise the loading flag. */
  function BeginFact(c: Counter): (r: Counter)
    ensures r.count == c.count
    ensures r.fact == None
    ensures r.factIsLoading
  {
    c.(fact := None, factIsLoading := true)
  }

  /**
   The second phase: show the loaded text, or swallow the error and keep the
   fact as it was; in both cases the deferred reset lowers the loading flag.
   */
  function CompleteFact(c: Counter, outcome: FetchOutcome): (r: Counter)
    ensures r.count == c.count
    ensures !r.factIsLoading
    ensures outcome.Loaded? ==> r.fact == Some(outcome.text)
    ensures outcome.Failed? ==> r.fact == c.fact
  {
    match outcome
    case Loaded(text) => c.(fact := Some(text), factIsLoading := false)
    case Failed => c.(factIsLoading := false)
  }

  /**
   What the fetch meets once it resumes: a cancelled sleep fails before any
   request is made; otherwise the service answers the address built from the
   count as it is then.
   */
  function FetchOutcomeFor(count: Int, sleepCompleted: bool, service: string -> FetchOutcome): (r: FetchOutcome)
    ensures !sleepCompleted ==> r == Failed
    ensures sleepCompleted ==> r == service(FactService + Decimal(count as int))
  {
    if sleepCompleted then service(FactUrl(count)) else Failed
  }

  /**
   A whole `factButtonTapped`, one invocation at a time: the count is never
   written, the loading flag is down at the end, and the fact is the text the
   service returned for the current count, or absent on any failure.
   */
  function FactButton(c: Counter, sleepCompleted: bool, service: string -> FetchOutcome): (r: Counter)
    ensures r.count == c.count
    ensures !r.factIsLoading
    ensures sleepCompleted && service(FactUrl(c.count)).Loaded? ==> r.fact == Some(service(FactUrl(c.count)).text)
    ensures !sleepCompleted || service(FactUrl(c.count)).Failed? ==> r.fact == None
  {
    var begun := BeginFact(c);
    CompleteFact(begun, FetchOutcomeFor(begun.count, sleepCompleted, service))
  }

  // ---------------------------------------------------------------------------
  // The model object

  /** `CounterModel`: one object per counter screen, whose actions update its three fields in place. */
  class CounterModel {
    var count: Int
    var fact: Option<string>
    var factIsLoading: bool

    /** The fields as one value. */
    function State(): Counter
      reads this
    {
      Counter(count, fact, factIsLoading)
    }

    constructor ()
      ensures State() == Initial
    {
      count := 0;
      fact := None;
      factIsLoading := false;
    }

    method IncrementButtonTapped()
      requires count < MaxInt
      modifies this
      ensures State() == Increment(old(State()))
    {
      count := count + 1;
      fact := None;
    }

    method DecrementButtonTapped()
      requires MinInt < count
      modifies this
      ensures State() == Decrement(old(State()))
    {
      count := count - 1;
      fact := None;
    }

    /** Lines before the first `await`. The source clears the fact twice, once inside an animation scope; once is the same. */
    method BeginFactFetch()
      modifies this
      ensures State() == BeginFact(old(State()))
    {
      fact := None;
      factIsLoading := true;
    }

    /** Lines after the last `await`, including the error handler and the deferred reset of the loading flag. */
    method CompleteFactFetch(outcome: FetchOutcome)
      modifies this
      ensures State() == CompleteFact(old(State()), outcome)
    {
      match outcome {
        case Loaded(text) =>
          fact := Some(text);
        case Failed =>
      }
      factIsLoading := false;
    }

    /**
     `factButtonTapped`, with the sleep's result and the service passed in.
     Returns the address requested, if the request was made.
     */
    method FactButtonTapped(sleepCompleted: bool, service: string -> FetchOutcome) returns (request: Option<string>)
      modifies this
      ensures request == (if sleepCompleted then Some(FactUrl(old(count))) else None)
      ensures State() == FactButton(old(State()), sleepCompleted, service)
    {
      BeginFactFetch();
      var outcome: FetchOutcome;
      if sleepCompleted {
        var url := FactUrl(count);
        request := Some(url);
        outcome := service(url);
      } else {
        request := None;
        outcome := Failed;
      }
      CompleteFactFetch(outcome);
    }
  }
}
