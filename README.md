# ObservationUIKit counter and presentation helper, in Dafny

This project models the two pieces of the ObservationUIKit demo app that hold state.

- **`CounterModel`** (`counter_feature.dfy`, module `CounterFeature`) is the counter screen's model. It holds `count`, an optional `fact` and `factIsLoading`. It has three actions:
  - increment and decrement move `count` by one and clear `fact`;
  - the fact button clears `fact`, raises `factIsLoading`, sleeps for a second, then requests `http://numberapi.com/<count>`. It shows the decoded reply, or it swallows any error. A deferred statement lowers `factIsLoading` on every way out.

  The class `CounterModel` updates its fields in place. Each method is tied to a pure function on the value type `Counter`. The lemmas are stated about those functions.
- **`present(item:content:)`** (`navigation.dfy`, module `Navigation`) is the one-at-a-time presentation helper. Each view controller keeps a slot for the child it presented:
  - an item with an empty slot builds a child through the factory, stores it and presents it;
  - no item with a filled slot dismisses the stored child and empties the slot;
  - every other combination does nothing.

  The class `ViewController` holds the slot and a log of the calls the helper makes. The log records three kinds of event: the factory building a child, `present`, and `dismiss`. The pure function `PresentStep` states one call. The independent reading `Replay` states the discipline of at most one live child, and the lemmas prove the helper keeps it over any sequence of calls.

Modelling choices:

- Swift's `Int` is the 64-bit newtype `Int`. Swift traps when `count += 1` or `count -= 1` overflows. That trap becomes a precondition of the single-step members. Over a sequence of taps, `Run` returns `None` at the tap that would trap.
- The suspended part of `factButtonTapped` is passed in from outside. `sleepCompleted` says whether `Task.sleep` returned or threw. `service` maps the requested address to `Loaded(text)` or `Failed`. `Failed` covers a network error; UTF-8 decoding with repair never throws.
- The request address is modelled as text: the fixed prefix followed by the count in decimal, as Swift's string interpolation writes it.

Two consequences of the code are worth stating:
- A successful fetch stores whatever body arrives, including an empty one (ObservationUIKit/CounterFeature.swift:37-44).
- `fact` is a plain `String?`. No identity wraps it and nothing clears it after a delay.

## Model

| member | source | states |
|---|---|---|
| `CounterFeature.Increment` | ObservationUIKit/CounterFeature.swift:19-22 | an increment raises `count` by exactly one, clears `fact` and leaves `factIsLoading` alone; it needs `count` below `Int.max`, where Swift would trap |
| `CounterFeature.Decrement` | ObservationUIKit/CounterFeature.swift:23-26 | a decrement lowers `count` by exactly one, clears `fact` and leaves `factIsLoading` alone; it needs `count` above `Int.min` |
| `CounterFeature.IncrementThenDecrement` | ObservationUIKit/CounterFeature.swift:19-26 | increment then decrement restores the model except that `fact` is nil |
| `CounterFeature.DecrementThenIncrement` | ObservationUIKit/CounterFeature.swift:19-26 | decrement then increment restores the model except that `fact` is nil |
| `CounterFeature.ApplyTap` | ObservationUIKit/CounterFeature.swift:19-26 | one tap succeeds exactly when the new count fits in `Int`, where Swift's checked `+=` and `-=` would otherwise trap; on success the count moves by one, `fact` is nil and `factIsLoading` is kept |
| `CounterFeature.Run` | ObservationUIKit/CounterFeature.swift:19-26 | a sequence of taps that does not trap keeps `factIsLoading`, and leaves `fact` nil if there was any tap |
| `CounterFeature.RunCount` | ObservationUIKit/CounterFeature.swift:19-26 | after any sequence of taps that does not trap, `count` has moved by the number of increments minus the number of decrements, `factIsLoading` is unchanged, and `fact` is nil if there was any tap |
| `CounterFeature.RunTrapsExactly` | ObservationUIKit/CounterFeature.swift:19-26 | a sequence of taps runs to the end exactly when every running total stays within `Int` |
| `CounterFeature.Decimal` | ObservationUIKit/CounterFeature.swift:39 | the interpolated text of a count is a minus sign exactly for negative counts, followed by decimal digits with no leading zero; 0 is written as exactly `0` |
| `CounterFeature.DecimalRoundTrip` | ObservationUIKit/CounterFeature.swift:39 | the decimal text interpolated for a count reads back as that count, negative counts included |
| `CounterFeature.FactUrl` | ObservationUIKit/CounterFeature.swift:39 | the request address is `http://numberapi.com/` followed by the decimal text of the count |
| `CounterFeature.FactUrlInjective` | ObservationUIKit/CounterFeature.swift:39 | two counts give the same request address only if they are equal |
| `CounterFeature.BeginFact` | ObservationUIKit/CounterFeature.swift:29-33 | before the first suspension, `fact` is nil, `factIsLoading` is true and `count` is untouched |
| `CounterFeature.CompleteFact` | ObservationUIKit/CounterFeature.swift:34-47 | after the suspension, `factIsLoading` is false on both paths; on success `fact` is the loaded text; on an error `fact` is left as it was; `count` is untouched |
| `CounterFeature.FetchOutcomeFor` | ObservationUIKit/CounterFeature.swift:36-41 | a failed sleep fails the fetch before any request is made; after a completed sleep the outcome is the service's answer for the address built from the count |
| `CounterFeature.FactButton` | ObservationUIKit/CounterFeature.swift:28-48 | a whole fact fetch never changes `count` and ends with `factIsLoading` false; `fact` is the text the service returned for the current count, or nil when the sleep or the request failed |
| `CounterFeature.CounterModel.constructor` | ObservationUIKit/CounterFeature.swift:15-17 | a new model has count 0, no fact and is not loading |
| `CounterFeature.CounterModel.IncrementButtonTapped` | ObservationUIKit/CounterFeature.swift:19-22 | the object's new fields are `Increment` of its old ones |
| `CounterFeature.CounterModel.DecrementButtonTapped` | ObservationUIKit/CounterFeature.swift:23-26 | the object's new fields are `Decrement` of its old ones |
| `CounterFeature.CounterModel.BeginFactFetch` | ObservationUIKit/CounterFeature.swift:29-33 | the object's new fields are `BeginFact` of its old ones |
| `CounterFeature.CounterModel.CompleteFactFetch` | ObservationUIKit/CounterFeature.swift:34-47 | the object's new fields are `CompleteFact` of its old ones and the outcome |
| `CounterFeature.CounterModel.FactButtonTapped` | ObservationUIKit/CounterFeature.swift:28-48 | the request is made only when the sleep completed, and its address is built from `count` at that moment; the new fields are `FactButton` of the old ones |
| `Navigation.PresentStep` | ObservationUIKit/Navigation.swift:28-37 | an item with an empty slot calls the factory once, stores its child and presents it; an item with a filled slot does nothing; no item with a filled slot dismisses exactly the stored child and empties the slot; no item with an empty slot does nothing |
| `Navigation.PresentSlotTracksItem` | ObservationUIKit/Navigation.swift:29-36 | after any call the slot is filled exactly when the item passed was non-nil |
| `Navigation.PresentIdempotent` | ObservationUIKit/Navigation.swift:28-37 | repeating the call with an item of the same nil-ness changes nothing and makes no call |
| `Navigation.Drive` | ObservationUIKit/Navigation.swift:28-37 | after a sequence of calls the slot is filled exactly when the last item was non-nil |
| `Navigation.PresentStepKeepsDiscipline` | ObservationUIKit/Navigation.swift:28-37 | one call builds or presents only while nothing is live, dismisses only the live child, and leaves live exactly the child in the slot |
| `Navigation.DriveKeepsDiscipline` | ObservationUIKit/Navigation.swift:28-37 | over any sequence of calls there is never more than one live child, only the live child is dismissed, and the slot names the child left live |
| `Navigation.ViewController.constructor` | ObservationUIKit/Navigation.swift:12-25 | a controller starts with an empty slot and no calls logged |
| `Navigation.ViewController.Present` | ObservationUIKit/Navigation.swift:28-37 | the new slot and the calls appended to the log are those of `PresentStep` on the old slot, and the one-live-child invariant is kept |

## Left out

- ObservationUIKit/Observation.swift, the `observe`/`onChange` re-render loop and `withUIAnimation`: they wrap an external dependency-tracking library and task scheduling, and have no logic of their own to state.
- The views `CounterView`, `CounterViewController` and `UIViewControllerRepresenting`, and the app entry point ObservationUIKit/ObservationUIKitApp.swift: they only build and lay out widgets.
- The animation scopes around the `fact` assignments and the duplicate clearing of `fact` inside one of them: the model clears `fact` once, which leaves the same state.
- `Task.sleep`, `URLSession` and UTF-8 decoding: they are replaced by the outcome passed to the fetch. The one-second delay and the network are not modelled. The force-unwrap of `URL(string:)` is not modelled; it cannot fail for these addresses.
- Overlapping fact fetches: the model runs one invocation at a time. The source has no guard against a second tap while a fetch is suspended, so two fetches can overwrite each other's `fact` and `factIsLoading`. The model does not claim that only one fetch runs at a time.
- `CounterFeature.CounterModel.FactButtonTapped`: taps on increment or decrement during the suspension at ObservationUIKit/CounterFeature.swift:36 are not modelled. The model builds the address from the count on entry, which stands for the count read at line 39. The two agree in the shipped app because its views disable those buttons while `factIsLoading` is true (lines 73 and 166-168); `CounterModel` itself has no such guard.
- Cancellation while suspended: a thrown `CancellationError` is one of the `Failed` outcomes.
- The Objective-C associated-object storage behind the `presented` slot: it is a plain optional field. `present(_:animated:)` and `dismiss(animated:)` are recorded as log entries, and UIKit's own presentation state is not modelled.
- `CounterFeature.CounterModel.IncrementButtonTapped`: requires `count` below `Int.max`, because Swift traps there. It does not model the crash itself.
- `CounterFeature.CounterModel.DecrementButtonTapped`: requires `count` above `Int.min`, for the same reason.
