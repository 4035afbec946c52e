/**
 * Answer: the dirty flag, the list of Results and the list of commands a
 * dispatch produced. Answer and its Results share one mutex; the ghost
 * `locked` field stands for that mutex being held by the caller.
 */
module Answers {
  import opened Wrappers
  import opened Commands
  import SensorModel

  class Answer {
    var dirty: bool
    var results: seq<ResultRecord>
    /** Size of m_commandList. */
    var commands: nat
    ghost var locked: bool

    constructor (commandCount: nat)
      ensures !dirty && results == [] && commands == commandCount && !locked
    {
      dirty := false;
      results := [];
      commands := commandCount;
      locked := false;
    }

    /** Taking the shared mutex (a ScopedLock on lock()). */
    ghost method Acquire()
      requires !locked
      modifies this`locked
      ensures locked
    {
      locked := true;
    }

    ghost method Release()
      requires locked
      modifies this`locked
      ensures !locked
    {
      locked := false;
    }

    /** setDirtyUnlocked: must run under the shared mutex. */
    method SetDirtyUnlocked(b: bool)
      requires locked
      modifies this`dirty
      ensures dirty == b
    {
      dirty := b;
    }

    /** setDirty: takes the mutex and delegates. */
    method SetDirty(b: bool)
      requires !locked
      modifies this`dirty, this`locked
      ensures dirty == b && !locked
    {
      Acquire();
      SetDirtyUnlocked(b);
      Release();
    }

    function IsDirty(): bool
      reads this
    {
      dirty
    }

    /** isPending: some Result has not yet reached a terminal state. */
    predicate IsPending()
      reads this
    {
      exists i :: 0 <= i < |results| && !Terminal(results[i])
    }

    /** isEmpty: the command list, not the result list, is empty. */
    predicate IsEmpty()
      reads this
    {
      commands == 0
    }

    function ResultsCount(): nat
      reads this
    {
      |results|
    }

    /** at(i): the results in the order they were added. */
    function At(i: nat): ResultRecord
      reads this
      requires i < |results|
    {
      results[i]
    }

    /** addResult: a Result's constructor registers it at the end of the list. */
    method AddResult(r: ResultRecord) returns (index: nat)
      modifies this`results
      ensures results == old(results) + [r]
      ensures index == |old(results)| && At(index) == r
    {
      index := |results|;
      results := results + [r];
    }

    /** notifyUpdated: marks the Answer dirty for the waiting queue. */
    method NotifyUpdated()
      modifies this`dirty
      ensures dirty
    {
      dirty := true;
    }

    /**
     * A Result's status change (setStatusUnlocked) under the shared mutex;
     * the change marks the Answer dirty.
     */
    method SetStatusUnlocked(i: nat, s: Status)
      requires locked && i < |results|
      modifies this`results, this`dirty
      ensures results == old(results)[i := old(results)[i].(status := s)]
      ensures dirty
    {
      results := results[i := results[i].(status := s)];
      dirty := true;
    }

    /** A ServerDeviceListResult's list, written under the shared mutex. */
    method SetDeviceListUnlocked(i: nat, devices: seq<Identity.DeviceID>)
      requires locked && i < |results| && results[i].payload.DeviceList?
      modifies this`results
      ensures results == old(results)[i := old(results)[i].(payload := DeviceList(devices))]
    {
      results := results[i := results[i].(payload := DeviceList(devices))];
    }

    /** A ServerLastValueResult's value, written under the shared mutex. */
    method SetValueUnlocked(i: nat, v: SensorModel.Double)
      requires locked && i < |results| && results[i].payload.LastValue?
      modifies this`results
      ensures results == old(results)[i := old(results)[i].(payload := LastValue(v))]
    {
      results := results[i := results[i].(payload := LastValue(v))];
    }

    /** setExtendetSetStatusUnlocked: assureLocked, then write the field. */
    method SetExtendedSetStatusUnlocked(i: nat, s: SetStatus)
      requires locked && i < |results| && IsSetValueResult(results[i])
      modifies this`results
      ensures results == old(results)[i := WithExtendedSetStatus(old(results)[i], s)]
      ensures ExtendedSetStatus(At(i)) == Some(s)
    {
      results := results[i := WithExtendedSetStatus(results[i], s)];
    }

    /** setExtendetSetStatus: takes the shared mutex and delegates. */
    method SetExtendedSetStatus(i: nat, s: SetStatus)
      requires !locked && i < |results| && IsSetValueResult(results[i])
      modifies this`results, this`locked
      ensures !locked
      ensures results == old(results)[i := WithExtendedSetStatus(old(results)[i], s)]
      ensures ExtendedSetStatus(At(i)) == Some(s)
    {
      Acquire();
      SetExtendedSetStatusUnlocked(i, s);
      Release();
    }

    /** extendetSetStatusUnlocked: assureLocked, then read the field. */
    method ExtendedSetStatusUnlocked(i: nat) returns (s: Option<SetStatus>)
      requires locked && i < |results| && IsSetValueResult(results[i])
      ensures s == ExtendedSetStatus(At(i))
    {
      s := results[i].payload.ext;
    }

    /** extendetSetStatus: takes the shared mutex and delegates. */
    method GetExtendedSetStatus(i: nat) returns (s: Option<SetStatus>)
      requires !locked && i < |results| && IsSetValueResult(results[i])
      modifies this`locked
      ensures !locked && s == ExtendedSetStatus(At(i))
    {
      Acquire();
      s := ExtendedSetStatusUnlocked(i);
      Release();
    }
  }
}
