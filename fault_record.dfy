/** The fault record of the decorator, as a function of the history of its
    tracked calls. Each tracked call contributes its fault: the IOException
    it threw, or None when it returned or threw an unchecked exception. The
    catch block of every tracked call assigns the field unconditionally, so
    the record is the LAST fault of the history: later faults overwrite
    earlier ones and successes leave it alone. */
module FaultRecord {
  import opened JavaIO

  type Fault = Option<IOException>

  /** The fault a call contributes to the history: only an IOException is
      caught, so a returned value and an unchecked exception contribute none. */
  function FaultOf<T>(o: Outcome<T>): (f: Fault)
    ensures f == None <==> !o.Fail?
    ensures o.Fail? ==> f == Some(o.error)
  {
    match o
    case Ok(_) => None
    case Fail(e) => Some(e)
    case Unchecked(_) => None
  }

  /** One catch block: a fault overwrites the record, a success keeps it. */
  function Step(record: Fault, f: Fault): Fault
  {
    if f.Some? then f else record
  }

  /** The record after the calls whose faults are `faults`, from `record`. */
  function RecordFrom(record: Fault, faults: seq<Fault>): Fault
    decreases |faults|
  {
    if faults == [] then record else RecordFrom(Step(record, faults[0]), faults[1..])
  }

  /** The record of a decorator whose tracked calls had `faults`; the field
      starts out null. */
  function Recorded(faults: seq<Fault>): Fault
  {
    RecordFrom(None, faults)
  }

  /** One more tracked call applies one more catch block to the record. */
  lemma {:induction false} RecordFromSnoc(record: Fault, faults: seq<Fault>, f: Fault)
    ensures RecordFrom(record, faults + [f]) == Step(RecordFrom(record, faults), f)
    decreases |faults|
  {
    if faults == [] {
      assert faults + [f] == [f];
      assert [f][1..] == [];
    } else {
      assert (faults + [f])[0] == faults[0];
      assert (faults + [f])[1..] == faults[1..] + [f];
      RecordFromSnoc(Step(record, faults[0]), faults[1..], f);
    }
  }

  /** A failing call leaves its own exception in the record, whatever was
      recorded before; a succeeding call leaves the record as it was. */
  lemma {:induction false} TrackedCallEffect(faults: seq<Fault>, f: Fault)
    ensures f.Some? ==> Recorded(faults + [f]) == f
    ensures f == None ==> Recorded(faults + [f]) == Recorded(faults)
  {
    RecordFromSnoc(None, faults, f);
  }

  /** The record is null exactly when no tracked call has failed. */
  lemma {:induction false} NoFaultIff(faults: seq<Fault>)
    ensures Recorded(faults) == None <==> forall i :: 0 <= i < |faults| ==> faults[i] == None
    decreases |faults|
  {
    if faults != [] {
      var n := |faults| - 1;
      var prefix := faults[..n];
      assert faults == prefix + [faults[n]];
      RecordFromSnoc(None, prefix, faults[n]);
      NoFaultIff(prefix);
      assert forall i :: 0 <= i < n ==> prefix[i] == faults[i];
    }
  }

  /** The record holds `e` exactly when `e` is the exception of the latest
      failing tracked call. */
  lemma {:induction false} RecordedIsLatestFault(faults: seq<Fault>, e: IOException)
    ensures Recorded(faults) == Some(e) <==>
            exists i :: 0 <= i < |faults| && faults[i] == Some(e) &&
                        forall j :: i < j < |faults| ==> faults[j] == None
    decreases |faults|
  {
    if faults != [] {
      var n := |faults| - 1;
      var prefix := faults[..n];
      assert faults == prefix + [faults[n]];
      RecordFromSnoc(None, prefix, faults[n]);
      if faults[n].Some? {
        if Recorded(faults) == Some(e) {
          assert faults[n] == Some(e);
        }
      } else {
        RecordedIsLatestFault(prefix, e);
        if Recorded(faults) == Some(e) {
          var i :| 0 <= i < |prefix| && prefix[i] == Some(e) &&
                   forall j :: i < j < |prefix| ==> prefix[j] == None;
          assert faults[i] == Some(e);
          assert forall j :: i < j < |faults| ==> faults[j] == None by {
            forall j | i < j < |faults| ensures faults[j] == None {
              if j < n { assert faults[j] == prefix[j]; }
            }
          }
        }
        if exists i :: 0 <= i < |faults| && faults[i] == Some(e) &&
                       forall j :: i < j < |faults| ==> faults[j] == None {
          var i :| 0 <= i < |faults| && faults[i] == Some(e) &&
                   forall j :: i < j < |faults| ==> faults[j] == None;
          assert i < n;
          assert prefix[i] == Some(e);
          assert forall j :: i < j < |prefix| ==> prefix[j] == None by {
            forall j | i < j < |prefix| ensures prefix[j] == None {
              assert prefix[j] == faults[j];
            }
          }
        }
      }
    }
  }

  /** The record after two runs of calls: the second run's record if it
      failed at all, otherwise the first run's. So a record, once set, is
      never cleared, any later fault overwrites it, and later successes
      leave it alone. */
  lemma {:induction false} RecordedConcat(first: seq<Fault>, second: seq<Fault>)
    ensures Recorded(first + second) ==
            if Recorded(second).Some? then Recorded(second) else Recorded(first)
    decreases |second|
  {
    if second == [] {
      assert first + second == first;
    } else {
      var n := |second| - 1;
      var prefix := second[..n];
      assert second == prefix + [second[n]];
      assert first + second == (first + prefix) + [second[n]];
      RecordFromSnoc(None, first + prefix, second[n]);
      RecordFromSnoc(None, prefix, second[n]);
      RecordedConcat(first, prefix);
    }
  }

  /** Unlike a first-fault-wins record, a second distinct fault replaces the
      first one. */
  lemma LaterFaultReplacesEarlier(e1: IOException, e2: IOException)
    requires e1 != e2
    ensures Recorded([Some(e1), Some(e2)]) == Some(e2) != Some(e1)
  {
    assert [Some(e1), Some(e2)] == [Some(e1)] + [Some(e2)];
    TrackedCallEffect([Some(e1)], Some(e2));
  }
}
