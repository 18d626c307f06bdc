/** std::beta::error_or<ValueType>: a hand-written tagged union holding either
    an error code or a live payload, the code being the tag. The module and
    its class share a name, so clients import it under an alias
    (import E = ErrorOr) and write E.ErrorOr<T>. */
module ErrorOr {
  import opened ErrorOrState

  class ErrorOr<T> {
    /** ec_: NoError exactly when a payload is live in the storage. */
    var ec: int
    /** space_: the raw storage, abstracted to what it holds. */
    var slot: Slot<T>
    /** The C++ object's lifetime: set by the constructors, cleared by the destructor. */
    ghost var alive: bool

    ghost predicate Valid()
      reads this
    {
      alive && ErrorOrState.Valid(Snapshot())
    }

    ghost function Snapshot(): State<T>
      reads this
    {
      State(ec, slot)
    }

    /** error_or(error_code ec): stores the code and constructs no payload. */
    constructor FromError(e: int)
      requires e != NoError
      ensures Valid() && Snapshot() == ErrorState(e)
    {
      ec := e;
      slot := Empty;
      alive := true;
    }

    /** error_or(ValueType value): the default code, and the argument moved
        into the storage. */
    constructor FromValue(v: T)
      ensures Valid() && Snapshot() == ValueState(v)
    {
      ec := NoError;
      slot := Empty;
      alive := true;
      new;
      Construct(Intact(v));
    }

    /** Copy constructor: copies the code, and copy-constructs a payload from
        other.value() only when other holds one; other is not modified. */
    constructor Copy(other: ErrorOr<T>)
      requires other.Valid()
      ensures Valid() && Snapshot() == other.Snapshot()
    {
      ec := other.ec;
      slot := Empty;
      alive := true;
      new;
      if ec == NoError {
        var r := other.Value();
        Construct(r.value);
      }
    }

    /** Move constructor: copies the code, and move-constructs a payload from
        move(other).value() only when other holds one; other keeps its code and
        so still reports a (now moved-from) payload. */
    constructor Move(other: ErrorOr<T>)
      requires other.Valid()
      modifies other
      ensures Valid() && Snapshot() == old(other.Snapshot())
      ensures other.Valid() && other.Snapshot() == MovedOut(old(other.Snapshot()))
    {
      ec := other.ec;
      slot := Empty;
      alive := true;
      new;
      if ec == NoError {
        var r := other.Take();
        Construct(r.value);
      }
    }

    /** ~error_or(): destroys the payload exactly when the code is NoError, and
        ends the object's lifetime. The payload torn down is returned so that
        callers can state what was released. */
    method Destroy() returns (released: Option<Payload<T>>)
      requires Valid()
      modifies this
      ensures !alive && ec == old(ec) && slot == Empty
      ensures released == Released(old(Snapshot()))
    {
      released := None;
      if ec == NoError {
        released := Some(slot.p);
        DestroyPayload();
      }
      alive := false;
    }

    /** operator=(error_or other) called with an lvalue: copy-and-swap. The
        parameter is copy-constructed from src, swapped with *this, and its
        destructor releases what *this held before. */
    method CopyAssign(src: ErrorOr<T>) returns (released: Option<Payload<T>>)
      requires Valid() && src.Valid()
      modifies this
      ensures Valid() && Snapshot() == old(src.Snapshot())
      ensures released == Released(old(Snapshot()))
    {
      var tmp := new ErrorOr.Copy(src);
      Swap(tmp);
      released := tmp.Destroy();
    }

    /** operator=(error_or other) called with an rvalue: the parameter is
        move-constructed from src, which is left moved-from, then swapped with
        *this and destroyed. Moving a container into itself leaves it as it was. */
    method MoveAssign(src: ErrorOr<T>) returns (released: Option<Payload<T>>)
      requires Valid() && src.Valid()
      modifies this, src
      ensures Valid() && Snapshot() == old(src.Snapshot())
      ensures src != this ==> src.Valid() && src.Snapshot() == MovedOut(old(src.Snapshot()))
      ensures src != this ==> released == Released(old(Snapshot()))
      ensures src == this ==> released == Released(MovedOut(old(Snapshot())))
    {
      var tmp := new ErrorOr.Move(src);
      Swap(tmp);
      released := tmp.Destroy();
    }

    /** Member swap: exchanges the full states of *this and other. Two errors
        exchange codes only; two payloads exchange codes and payloads in place;
        in the mixed case the payload is moved into the empty storage and the
        moved-from original destroyed. Swapping with itself changes nothing. */
    method Swap(other: ErrorOr<T>)
      requires Valid() && other.Valid()
      modifies this, other
      ensures Valid() && other.Valid()
      ensures Snapshot() == old(other.Snapshot())
      ensures other.Snapshot() == old(Snapshot())
    {
      if ec != NoError && other.ec != NoError {
        var e := ec;
        ec := other.ec;
        other.ec := e;
      } else if ec == NoError && other.ec == NoError {
        var e := ec;
        ec := other.ec;
        other.ec := e;
        var mine := slot;
        slot := other.slot;
        other.slot := mine;
      } else if ec == NoError {
        MoveInto(other);
      } else {
        other.MoveInto(this);
      }
    }

    /** The mixed case of swap, from the side that holds the payload: exchange
        the codes, move-construct the payload into dest's empty storage, then
        destroy the moved-from original. */
    method MoveInto(dest: ErrorOr<T>)
      requires Valid() && dest.Valid()
      requires ec == NoError && dest.ec != NoError
      modifies this, dest
      ensures Valid() && dest.Valid()
      ensures Snapshot() == old(dest.Snapshot())
      ensures dest.Snapshot() == old(Snapshot())
    {
      var e := ec;
      ec := dest.ec;
      dest.ec := e;
      var p := MoveOut();
      dest.Construct(p);
      DestroyPayload();
    }

    /** explicit operator bool(): true iff a payload is present. */
    function HasValue(): (b: bool)
      reads this
      requires Valid()
      ensures b <==> slot.Live?
    {
      ec == NoError
    }

    /** error(): the stored code, NoError included; it tests false exactly
        when operator bool is true. */
    function Error(): (e: int)
      reads this
      requires Valid()
      ensures (e == NoError) <==> HasValue()
      ensures e != NoError ==> slot == Empty
    {
      ec
    }

    /** value() const&: the live payload, or the system_error carrying the
        stored code when there is none. */
    function Value(): (r: Result<Payload<T>>)
      reads this
      requires Valid()
      ensures r.Misuse? <==> !HasValue()
      ensures r.Misuse? ==> r.code == Error()
      ensures r.Ok? ==> slot == Live(r.value)
    {
      if ec != NoError then Misuse(ec) else Ok(UncheckedValue())
    }

    /** value() &&: like value() const&, but moves the payload out. The code is
        kept, so a second call yields a moved-from payload rather than failing. */
    method Take() returns (r: Result<Payload<T>>)
      requires Valid()
      modifies this`slot
      ensures Valid() && Snapshot() == MovedOut(old(Snapshot()))
      ensures r.Misuse? <==> old(ec) != NoError
      ensures r.Misuse? ==> r.code == old(ec)
      ensures r.Ok? ==> old(slot) == Live(r.value)
    {
      if ec != NoError {
        r := Misuse(ec);
      } else {
        var p := MoveOut();
        r := Ok(p);
      }
    }

    /** unchecked_value(): the storage read as a T; meaningful only while a
        payload is live. */
    function UncheckedValue(): (p: Payload<T>)
      reads this
      requires slot.Live?
      ensures slot == Live(p)
    {
      slot.p
    }

    /** Placement new into space_: the storage must be empty. */
    method Construct(p: Payload<T>)
      requires slot == Empty
      modifies this`slot
      ensures slot == Live(p)
    {
      slot := Live(p);
    }

    /** move(unchecked_value()): moves the contents out of the live payload,
        which stays constructed in its moved-from state. */
    method MoveOut() returns (p: Payload<T>)
      requires slot.Live?
      modifies this`slot
      ensures p == old(slot.p) && slot == Live(MovedFrom)
    {
      p := slot.p;
      slot := Live(MovedFrom);
    }

    /** unchecked_value().~ValueType(): the payload must be live. */
    method DestroyPayload()
      requires slot.Live?
      modifies this`slot
      ensures slot == Empty
    {
      slot := Empty;
    }
  }

  /** The free swap(lhs, rhs), which forwards to the member swap. */
  method Swap<T>(lhs: ErrorOr<T>, rhs: ErrorOr<T>)
    requires lhs.Valid() && rhs.Valid()
    modifies lhs, rhs
    ensures lhs.Valid() && rhs.Valid()
    ensures lhs.Snapshot() == old(rhs.Snapshot())
    ensures rhs.Snapshot() == old(lhs.Snapshot())
  {
    lhs.Swap(rhs);
  }

  /** The test driver's scenario: a container built from error code 3 reports
      no payload, returns the code from error(), and value() fails with 3. */
  method ErrorCodeScenario() returns (present: bool, code: int, access: Result<Payload<int>>)
    ensures !present && code == 3 && access == Misuse(3)
  {
    var r := new ErrorOr<int>.FromError(3);
    present := r.HasValue();
    code := r.Error();
    access := r.Value();
  }

  /** Taking the value twice: the first take returns the value the container
      was built from, the second a moved-from payload, and the container still
      reports a payload in between and after. */
  method TakeTwice<T>(v: T) returns (first: Result<Payload<T>>, second: Result<Payload<T>>, present: bool)
    ensures first == Ok(Intact(v))
    ensures second == Ok(MovedFrom)
    ensures present
  {
    var c := new ErrorOr.FromValue(v);
    first := c.Take();
    second := c.Take();
    present := c.HasValue();
  }

  /** Swapping an error container with a value container moves the value
      across and the code the other way; swapping back restores both. */
  method SwapScenario<T>(v: T) returns (afterOne: Result<Payload<T>>, codeOne: int, afterTwo: Result<Payload<T>>, codeTwo: int)
    ensures afterOne == Ok(Intact(v)) && codeOne == 3
    ensures afterTwo == Misuse(3) && codeTwo == NoError
  {
    var c := new ErrorOr<T>.FromError(3);
    var c2 := new ErrorOr.FromValue(v);
    Swap(c, c2);
    afterOne := c.Value();
    codeOne := c2.Error();
    Swap(c, c2);
    afterTwo := c.Value();
    codeTwo := c2.Error();
  }
}
