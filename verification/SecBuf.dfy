/** Memory buffers with a recorded protection state, over pages that have a protection of their own. */
module SecBuf {

  type Byte = b: int | 0 <= b < 256

  datatype Security = Insecure | Secure
  datatype Protect = NoAccess | ReadOnly | ReadWrite

  // ---------------------------------------------------------------- protection, as a state machine

  /** What the buffer believes and what the page is set to. Insecure memory has no page protection. */
  datatype State = State(t: Security, p: Protect, page: Protect)

  datatype Op = ReadLock | WriteLock | Release | Clone

  /** Taking a lock on a locked buffer panics. */
  predicate Panics(s: State, op: Op) {
    (op.ReadLock? || op.WriteLock?) && s.p != NoAccess
  }

  function OnPage(s: State, page: Protect): State {
    if s.t.Secure? then s.(page := page) else s
  }

  /** A panicking call changes nothing; `clone` sets the page to no access whatever is recorded. */
  function Step(s: State, op: Op): State {
    if Panics(s, op) then s
    else match op
         case ReadLock => OnPage(s.(p := ReadOnly), ReadOnly)
         case WriteLock => OnPage(s.(p := ReadWrite), ReadWrite)
         case Release => OnPage(s.(p := NoAccess), NoAccess)
         case Clone => OnPage(OnPage(s, ReadOnly), NoAccess)
  }

  function Run(s: State, ops: seq<Op>): State {
    if ops == [] then s else Step(Run(s, ops[..|ops| - 1]), ops[|ops| - 1])
  }

  /** The recorded protection is that of the page. */
  predicate Agrees(s: State) {
    s.t.Insecure? || s.p == s.page
  }

  /** No clone of a locked secure buffer among the first `n` steps. */
  ghost predicate ClonesUnlocked(s: State, ops: seq<Op>, n: nat)
    requires n <= |ops|
  {
    forall i | 0 <= i < n && ops[i].Clone? :: s.t.Insecure? || Run(s, ops[..i]).p == NoAccess
  }

  lemma {:induction false} AgreesAtEnd(s: State, ops: seq<Op>)
    requires Agrees(s) && ClonesUnlocked(s, ops, |ops|)
    ensures Agrees(Run(s, ops)) && Run(s, ops).t == s.t
  {
    if ops != [] {
      var front := ops[..|ops| - 1];
      assert forall i | 0 <= i < |front| :: front[..i] == ops[..i];
      AgreesAtEnd(s, front);
    }
  }

  /** Where the two part ways: exactly at a clone of a locked secure buffer. */
  lemma DisagreementIsAClone(s: State, op: Op)
    requires Agrees(s)
    ensures !Agrees(Step(s, op)) <==> op.Clone? && s.t.Secure? && s.p != NoAccess
  {
  }

  lemma OneMore(s: State, ops: seq<Op>, i: nat)
    requires i < |ops|
    ensures Run(s, ops[..i + 1]) == Step(Run(s, ops[..i]), ops[i]) && Run(s, ops[..i]).t == s.t
  {
    assert ops[..i + 1][..i] == ops[..i];
    SameSecurity(s, ops[..i]);
  }

  lemma {:induction false} SameSecurity(s: State, ops: seq<Op>)
    ensures Run(s, ops).t == s.t
  {
    if ops != [] {
      SameSecurity(s, ops[..|ops| - 1]);
    }
  }

  /** The record and the page agree throughout a run exactly when it clones secure buffers only unlocked. */
  lemma AgreesThroughout(s: State, ops: seq<Op>)
    requires Agrees(s)
    ensures (forall n | 0 <= n <= |ops| :: Agrees(Run(s, ops[..n]))) <==> ClonesUnlocked(s, ops, |ops|)
  {
    if ClonesUnlocked(s, ops, |ops|) {
      forall n | 0 <= n <= |ops|
        ensures Agrees(Run(s, ops[..n]))
      {
        assert forall i | 0 <= i < n :: ops[..n][..i] == ops[..i];
        AgreesAtEnd(s, ops[..n]);
      }
    } else {
      var i :| 0 <= i < |ops| && ops[i].Clone? && !(s.t.Insecure? || Run(s, ops[..i]).p == NoAccess);
      OneMore(s, ops, i);
      assert !Agrees(Run(s, ops[..i + 1]));
    }
  }

  /** Releasing the lock restores the agreement from any state. */
  lemma ReleaseRepairs(s: State)
    ensures Agrees(Step(s, Release))
  {
  }

  /** A locked secure buffer, once cloned, is recorded as readable and is not. */
  lemma LockedCloneExample()
    ensures var s := Run(State(Secure, NoAccess, NoAccess), [ReadLock, Clone]);
            s.p == ReadOnly && s.page == NoAccess && !Agrees(s)
  {
    var s, ops := State(Secure, NoAccess, NoAccess), [ReadLock, Clone];
    assert ops[..1] == [ReadLock] && ops[..1][..0] == [];
    assert Run(s, ops[..1]) == Step(Run(s, ops[..1][..0]), ReadLock);
  }

  // ---------------------------------------------------------------- the buffer

  datatype Outcome = Done | Overflow | Panicked

  class Buffer {
    const t: Security
    const data: array<Byte>
    var p: Protect
    var page: Protect

    ghost function Protection(): State
      reads this
    {
      State(t, p, page)
    }

    /** Unlocked, and the page agrees. */
    ghost predicate AtRest()
      reads this
    {
      Protection() == State(t, NoAccess, NoAccess)
    }

    constructor WithInsecure(size: nat)
      ensures t == Insecure && fresh(data) && data.Length == size && AtRest()
      ensures forall i | 0 <= i < size :: data[i] == 0
    {
      t, p, page := Insecure, NoAccess, NoAccess;
      data := new Byte[size](_ => 0);
    }

    /** Secure memory comes in multiples of 8 bytes and with unspecified contents; other sizes panic. */
    constructor WithSecure(size: nat)
      requires size % 8 == 0
      ensures t == Secure && fresh(data) && data.Length == size && AtRest()
    {
      t, p, page := Secure, NoAccess, NoAccess;
      data := new Byte[size];
    }

    method Protect(page: Protect)
      modifies this`page
      ensures Protection() == OnPage(old(Protection()), page)
    {
      if t.Secure? {
        this.page := page;
      }
    }

    method Lock(writable: bool) returns (r: Outcome)
      modifies this`p, this`page
      ensures Protection() == Step(old(Protection()), if writable then WriteLock else ReadLock)
      ensures r == if old(p) == NoAccess then Done else Panicked
    {
      if p != NoAccess {
        return Panicked;
      }
      p := if writable then ReadWrite else ReadOnly;
      Protect(p);
      return Done;
    }

    method Unlock()
      modifies this`p, this`page
      ensures Protection() == Step(old(Protection()), Release)
    {
      p := NoAccess;
      Protect(NoAccess);
    }

    /** `write`: exactly the given range changes, or nothing does. */
    method Write(offset: nat, bytes: seq<Byte>) returns (r: Outcome)
      modifies this`p, this`page, data
      ensures r == if offset + |bytes| > data.Length then Overflow else if old(p) != NoAccess then Panicked else Done
      ensures r != Done ==> data[..] == old(data[..]) && Protection() == old(Protection())
      ensures r == Done ==>
                && Protection() == Step(Step(old(Protection()), WriteLock), Release)
                && data[..] == old(data[..offset]) + bytes + old(data[offset + |bytes|..])
    {
      if offset + |bytes| > data.Length {
        return Overflow;
      }
      r := Lock(true);
      if r == Panicked {
        return;
      }
      for i := 0 to |bytes|
        modifies data
        invariant data[offset..offset + i] == bytes[..i]
        invariant data[..offset] == old(data[..offset]) && data[offset + i..] == old(data[offset + i..])
      {
        data[offset + i] := bytes[i];
        assert data[offset..offset + i + 1] == data[offset..offset + i] + [bytes[i]];
        assert data[offset + i + 1..] == old(data[offset + i..])[1..];
      }
      assert bytes[..|bytes|] == bytes;
      assert data[..] == data[..offset] + data[offset..offset + |bytes|] + data[offset + |bytes|..];
      Unlock();
    }

    /** `clone`: the copy is at rest; the original's page is made inaccessible whatever its lock says. */
    method Duplicate() returns (copy: Buffer)
      requires t.Secure? ==> data.Length % 8 == 0
      modifies this`page
      ensures fresh(copy) && fresh(copy.data) && copy.t == t && copy.data[..] == data[..] && copy.AtRest()
      ensures Protection() == Step(old(Protection()), Clone)
    {
      if t.Insecure? {
        copy := new Buffer.WithInsecure(data.Length);
      } else {
        copy := new Buffer.WithSecure(data.Length);
      }
      Protect(ReadOnly);
      var _ := copy.Lock(true);
      for i := 0 to data.Length
        modifies copy.data
        invariant copy.data[..i] == data[..i]
      {
        copy.data[i] := data[i];
        assert data[..i + 1] == data[..i] + [data[i]];
      }
      assert data[..data.Length] == data[..];
      copy.Unlock();
      Protect(NoAccess);
    }
  }
}
