/** The abstract state of one error_or<T> object: its error code and what its
    raw storage holds. Byte-level storage (aligned_storage, reinterpret_cast)
    is abstracted to a three-way slot state. */
module ErrorOrState {

  /** The error_code value meaning "no error"; the category is not modelled. */
  const NoError: int := 0

  /** A T object living in the storage: still holding the value it was built
      from, or left in T's moved-from state after its contents were moved out. */
  datatype Payload<T> = Intact(v: T) | MovedFrom

  /** What the raw storage holds: nothing, or a constructed T. */
  datatype Slot<T> = Empty | Live(p: Payload<T>)

  /** Outcome of value(): the payload, or the system_error it throws, which
      carries the stored error code. */
  datatype Result<T> = Ok(value: T) | Misuse(code: int)

  datatype Option<T> = None | Some(value: T)

  /** ec_ together with the contents of space_. */
  datatype State<T> = State(ec: int, slot: Slot<T>)

  /** The class invariant: a payload is live exactly when the code is the
      no-error code. */
  predicate Valid<T>(s: State<T>)
  {
    (s.ec == NoError) <==> s.slot.Live?
  }

  /** The state built by error_or(error_code ec). */
  function ErrorState<T>(e: int): (s: State<T>)
    requires e != NoError
    ensures Valid(s)
    ensures s.ec == e && !s.slot.Live?
  {
    State(e, Empty)
  }

  /** The state built by error_or(ValueType value). */
  function ValueState<T>(v: T): (s: State<T>)
    ensures Valid(s)
    ensures s.ec == NoError && s.slot.Live? && s.slot.p == Intact(v)
  {
    State(NoError, Live(Intact(v)))
  }

  /** The state a container is left in after its payload was moved out
      (move construction from it, or value() &&): the code is kept, so it
      still reports a payload, now a moved-from one. */
  function MovedOut<T>(s: State<T>): (r: State<T>)
    requires Valid(s)
    ensures Valid(r)
    ensures r.ec == s.ec
    ensures r.slot.Live? <==> s.slot.Live?
    ensures r.slot.Live? ==> r.slot.p == MovedFrom
  {
    match s.slot
    case Empty => s
    case Live(_) => State(s.ec, Live(MovedFrom))
  }

  /** The payload the destructor tears down, if any. */
  function Released<T>(s: State<T>): (r: Option<Payload<T>>)
    requires Valid(s)
    ensures r.Some? <==> s.ec == NoError
    ensures r.Some? ==> s.slot == Live(r.value)
  {
    if s.ec == NoError then Some(s.slot.p) else None
  }

  /** The member swap as written, with a bound on call depth: None means the
      bound ran out. In the mixed case it calls std::swap(*this, other), which
      move-constructs a temporary from *this (leaving *this moved-from) and
      then move-assigns other into *this; that operator= swaps *this with a
      temporary holding other's state, which is again a mixed pair. */
  function SwapAsWritten<T>(a: State<T>, b: State<T>, depth: nat): (r: Option<(State<T>, State<T>)>)
    requires Valid(a) && Valid(b)
    ensures depth > 0 && (a.ec == NoError) == (b.ec == NoError) ==> r == Some((b, a))
    decreases depth
  {
    if depth == 0 then None
    else if a.ec != NoError && b.ec != NoError then Some((State(b.ec, a.slot), State(a.ec, b.slot)))
    else if a.ec == NoError && b.ec == NoError then Some((b, a))
    else SwapAsWritten(MovedOut(a), b, depth - 1)
  }

  /** When exactly one side holds a payload, the swap as written never
      returns, whatever the call depth allowed. */
  lemma {:induction false} MixedSwapNeverReturns<T>(a: State<T>, b: State<T>, depth: nat)
    requires Valid(a) && Valid(b)
    requires (a.ec == NoError) != (b.ec == NoError)
    ensures SwapAsWritten(a, b, depth) == None
    decreases depth
  {
    if depth > 0 {
      MixedSwapNeverReturns(MovedOut(a), b, depth - 1);
    }
  }
}
