# error_or in Dafny

A model of `std::beta::error_or<ValueType>` (`error_or.h`), a hand-written
tagged union. It holds either a `std::error_code` or a live `ValueType` that
was built by placement-new in raw storage. The error code is the tag: a code
that tests false (value 0) means a payload is live in the storage. Any other
code means there is no payload.

The project has three modules:

- `ErrorOrState` (`state.dfy`) holds the abstract state of one object: the
  code `ec` (an `int`, where 0 is `NoError`) and a `Slot` that is `Empty` or
  `Live(p)`. The payload `p` is `Intact(v)` or `MovedFrom`, so "moved-from but
  still present" is different from "no payload". `Valid` is the class
  invariant: `ec == NoError` exactly when the slot is live. This module also
  gives the states built by the constructors, the state after a move-out, and
  what the destructor releases. It also holds the member swap as written (see
  Findings).
- `ErrorOr` (`error_or.dfy`) has `class ErrorOr<T>`, whose fields `ec` and
  `slot` are changed in place by:
  - the constructors;
  - the destructor (`Destroy`);
  - copy-and-swap assignment (`CopyAssign`, `MoveAssign`);
  - `Swap`;
  - the consuming `value() &&` (`Take`).

  `operator bool`, `error()` and `value() const&` are the read-only functions
  `HasValue`, `Error` and `Value`. The failure that `value()` throws is the
  `Misuse(code)` case of a `Result`, and it carries the stored code. Three
  low-level steps are helper methods:
  - placement-new (`Construct`);
  - `move(unchecked_value())` (`MoveOut`);
  - the explicit destructor call (`DestroyPayload`).

  Their preconditions require empty storage before a construct and live
  storage before a move or a destroy. So every verified caller never
  constructs twice and never destroys twice. `unchecked_value()` is the
  function `UncheckedValue`, which requires a live slot. The free `swap` is
  the module-level `Swap`.
- `ErrorOrHistory` (`history.dfy`) runs arbitrary sequences of these
  operations over a collection of containers. Each step is the state change
  that the matching class member promises. It proves two things: the
  invariant holds for every live container after every step, and any sequence
  of swaps followed by the same swaps in reverse restores every container.
  The steps are written to match the class members' postconditions; no proof
  connects the two, since a function cannot call a method.

## Model

| member | source | states |
|---|---|---|
| ErrorOrState.ErrorState | error_or.h:18 | building from a nonzero code stores exactly that code, has no payload, and satisfies the invariant |
| ErrorOrState.ValueState | error_or.h:19-22 | building from a value stores the no-error code and a live payload equal to the argument |
| ErrorOrState.MovedOut | error_or.h:69-76 | moving out keeps the code, so the container still reports a payload, which is now moved-from; the invariant is kept |
| ErrorOrState.Released | error_or.h:32-35 | the destructor releases a payload exactly when the code is NoError, and the payload it releases is the live one |
| ErrorOrState.SwapAsWritten | error_or.h:42-52 | as written, the both-error and both-value cases exchange the two states |
| ErrorOrState.MixedSwapNeverReturns | error_or.h:49-51 | as written, swap never returns when exactly one side holds a payload, for any call-depth bound |
| ErrorOr.ErrorOr.FromError | error_or.h:18 | the new object is valid, its code is e, and it holds no payload |
| ErrorOr.ErrorOr.FromValue | error_or.h:19-22 | the new object is valid, its code is NoError, and its payload is Intact(v) |
| ErrorOr.ErrorOr.Copy | error_or.h:24-27 | the copy has the source's code, and its payload equals the source's only when the source has one; the source is unchanged |
| ErrorOr.ErrorOr.Move | error_or.h:28-31 | the new object takes the source's state; the source keeps its code, and a payload it held becomes moved-from |
| ErrorOr.ErrorOr.Destroy | error_or.h:32-35 | the destructor ends the object's lifetime and tears down the live payload exactly when the code is NoError |
| ErrorOr.ErrorOr.CopyAssign | error_or.h:37-40 | after copy-and-swap, *this has the source's state, and the temporary releases exactly what *this held before |
| ErrorOr.ErrorOr.MoveAssign | error_or.h:37-40 | after move-and-swap, *this has the source's old state, a distinct source is left moved-from, and self-move-assignment changes nothing |
| ErrorOr.ErrorOr.Swap | error_or.h:42-52 | every case exchanges the full states of both objects, self-swap included, and both stay valid |
| ErrorOr.ErrorOr.MoveInto | error_or.h:49-51 | the intended mixed case: exchange the codes, move the payload into the empty storage, and destroy the original |
| ErrorOr.ErrorOr.HasValue | error_or.h:55-57 | operator bool is true exactly when a payload is live |
| ErrorOr.ErrorOr.Error | error_or.h:59-61 | error() tests false exactly when operator bool is true; a nonzero code means the storage is empty |
| ErrorOr.ErrorOr.Value | error_or.h:63-67 | value() fails exactly when there is no payload, and the failure carries error(); otherwise it returns the live payload |
| ErrorOr.ErrorOr.Take | error_or.h:69-76 | value() && fails with the stored code when there is no payload; otherwise it returns the payload and leaves a moved-from one with the code unchanged |
| ErrorOr.ErrorOr.UncheckedValue | error_or.h:79-85 | reading the storage as a ValueType needs a live payload and yields exactly that payload |
| ErrorOr.ErrorOr.Construct | error_or.h:21 | placement-new needs empty storage and leaves exactly the given payload live |
| ErrorOr.ErrorOr.MoveOut | error_or.h:75 | moving out of the storage returns its payload and leaves a moved-from object in place |
| ErrorOr.ErrorOr.DestroyPayload | error_or.h:34 | the explicit destructor call needs a live payload and leaves the storage empty |
| ErrorOr.Swap | error_or.h:91-94 | the free swap exchanges the full states, exactly like the member swap |
| ErrorOr.ErrorCodeScenario | error_or_test.cc:6-17 | an object built from code 3 reports no payload, error() returns 3, and value() fails carrying 3 |
| ErrorOr.TakeTwice | error_or.h:69-76 | the first take returns the constructed value; the second returns a moved-from payload instead of failing; the object still reports a payload |
| ErrorOr.SwapScenario | error_or.h:42-52 | with the intended mixed-case swap, swapping an error object with a value object moves the value and the code across; a second swap restores both |
| ErrorOrHistory.Step | error_or.h:18-76 | every operation keeps the invariant of every live container |
| ErrorOrHistory.Run | error_or.h:18-76 | after any sequence of operations, every live container satisfies the invariant |
| ErrorOrHistory.SwapsThenReversedRestore | error_or.h:42-52 | swap is its own inverse: swaps followed by the same swaps in reverse restore every container's state |

## Findings

| source | as written | input that shows it | evidently intended | confidence | as-written member | corrected member |
|---|---|---|---|---|---|---|
| error_or.h:49-51 | The mixed case calls `std::swap(*this, other)`. That move-constructs a temporary from `*this` and move-assigns `other` into `*this`. The by-value `operator=` (error_or.h:37-39) then calls the member `swap` on `*this`, which still holds its moved-from payload, and on a temporary with `other`'s error. That pair is mixed again, so the recursion never ends. | `swap` of an object built from a value with one built from error code 3 | the two states are exchanged: the payload is move-constructed into the empty storage, and the moved-from original is destroyed | high; not executed | ErrorOrState.MixedSwapNeverReturns | ErrorOr.ErrorOr.Swap |

`ErrorOrState.SwapAsWritten` follows the code as written, with a call-depth
bound. The class method `ErrorOr.ErrorOr.Swap` and the history model use the
intended exchange. Its mixed case is `ErrorOr.ErrorOr.MoveInto`. The
assignments `ErrorOr.ErrorOr.CopyAssign` and `ErrorOr.ErrorOr.MoveAssign`
call that swap, so on a mixed pair they also model the intended outcome. So
do the free swap `ErrorOr.Swap` (error_or.h:91-94), which forwards to the
member swap, and `ErrorOr.SwapScenario`, which swaps a mixed pair. This is the
intended behaviour, not a literal transcription, and nothing claims that the
literal delegation terminates.

## Left out

- ErrorOr.ErrorOr.FromError: requires a nonzero code. The source does not check this. With a zero code, the object would claim a payload that was never constructed, and the destructor would destroy it.
- ErrorOr.ErrorOr.CopyAssign: when one of *this and the source holds a payload and the other an error, the method models the intended copy-and-swap. The source's `operator=` (error_or.h:37-40) calls the mixed-case `swap` there and does not terminate (see Findings). The same holds for the `CopyAssign` step of the history model.
- ErrorOr.ErrorOr.MoveAssign: when one of *this and the source holds a payload and the other an error, the method models the intended move-and-swap. The source's `operator=` does not terminate there, for the same reason. The same holds for the `MoveAssign` step of the history model.
- ErrorOr.SwapScenario: swaps an error object with a value object using the intended mixed-case swap. On this input the source's swap (error_or.h:49-51) does not return (see Findings).
- ErrorOr.ErrorOr.Destroy: also returns the payload it tears down. The C++ destructor returns nothing; the result only lets the contract say what was released.
- Memory representation: `aligned_storage`, `reinterpret_cast`, placement-new and explicit destructor calls become the abstract `Slot` state, not bytes.
- The moved-from state of `ValueType` is one abstract value, `MovedFrom`. Copying a moved-from payload gives `MovedFrom` again.
- The both-value case calls `ValueType`'s own `swap` (or `std::swap`) on the two payloads. It is modelled as exchanging the two payloads. The temporary inside a generic `std::swap` lives outside the storage, and its own construction is not modelled.
- Exceptions thrown by `ValueType`'s copy and move constructors, and the `noexcept` specifications, are not modelled. Only the misuse failure of `value()` is modelled, as a `Result`.
- `std::error_category` and `system_category` are not modelled. An error code is an integer, and 0 means success.
- The literal mixed-case delegation to `std::swap` is not modelled as a terminating operation; see Findings.
- queue_examples.cpp is not part of this model. It is an illustrative sketch of a concurrent producer/consumer queue with network I/O, and it does not compile as given.
- error_or_test.cc has no logic of its own. Its assertions are restated in `ErrorOr.ErrorCodeScenario`.
