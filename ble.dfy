/**
 * The values the activity exchanges with the platform's Bluetooth LE stack,
 * and the record of the calls it makes on GATT connection objects.
 *
 * A connection object (android.bluetooth.BluetoothGatt) is modelled as an
 * opaque handle number plus the device it was opened to. Everything the
 * activity asks of the stack is appended to a transport log; the log is what
 * "at most one live connection" and "no call on a closed connection" are
 * stated about.
 */
module Ble {

  datatype Option<+T> = None | Some(value: T)

  /** A remote device as the stack presents it: the hardware address, which is
      what two device objects are compared by, and the name the stack reports,
      absent when it knows none. */
  datatype Device = Device(address: string, name: Option<string>)

  /** Identity of one connection object returned by connectGatt. */
  type HandleId = nat

  /** Service and characteristic identifiers, kept opaque. */
  type Uuid = string

  /** What the stack knows of a connected peripheral: service -> characteristics. */
  type Catalog = map<Uuid, set<Uuid>>

  /** The connection object the activity holds: its identity and its device. */
  datatype Gatt = Gatt(id: HandleId, device: Device)

  /** One call made by the activity on the stack. */
  datatype TransportCall =
    | GattConnect(device: Device, handle: HandleId)
    | GattDiscoverServices(handle: HandleId)
    | GattWrite(handle: HandleId, service: Uuid, characteristic: Uuid, value: string)
    | GattDisconnect(handle: HandleId)
    | GattClose(handle: HandleId)

  /** BluetoothProfile connection states and the GATT success status. */
  const StateDisconnected: int := 0
  const StateConnected: int := 2
  const GattSuccess: int := 0

  /** The handles a single call opens or releases. */
  function OpenedAfter(seen: set<HandleId>, c: TransportCall): set<HandleId>
  {
    if c.GattConnect? then seen + {c.handle} else seen
  }

  function LiveAfter(live: set<HandleId>, c: TransportCall): set<HandleId>
  {
    match c
    case GattConnect(_, h) => live + {h}
    case GattClose(h) => live - {h}
    case _ => live
  }

  /** Every handle some call in `t` has opened. */
  function Opened(t: seq<TransportCall>): set<HandleId>
  {
    if t == [] then {} else OpenedAfter(Opened(t[..|t| - 1]), t[|t| - 1])
  }

  /** The handles opened in `t` and not closed since: the connections still held. */
  function Live(t: seq<TransportCall>): (live: set<HandleId>)
    ensures live <= Opened(t)
  {
    if t == [] then {} else LiveAfter(Live(t[..|t| - 1]), t[|t| - 1])
  }

  /** A call is admissible after `t` when connectGatt yields a new object and
      every other call addresses a connection that is still open. */
  predicate CallOk(t: seq<TransportCall>, c: TransportCall)
  {
    if c.GattConnect? then c.handle !in Opened(t) else c.handle in Live(t)
  }

  /** Every call of the log was admissible when it was made. */
  predicate Legal(t: seq<TransportCall>)
  {
    forall i | 0 <= i < |t| :: CallOk(t[..i], t[i])
  }

  /** Every close is issued right after a disconnect of the same connection. */
  predicate ClosesFollowDisconnects(t: seq<TransportCall>)
  {
    forall i | 0 <= i < |t| && t[i].GattClose? :: 0 < i && t[i - 1] == GattDisconnect(t[i].handle)
  }

  lemma Snoc(t: seq<TransportCall>, c: TransportCall)
    ensures Opened(t + [c]) == OpenedAfter(Opened(t), c)
    ensures Live(t + [c]) == LiveAfter(Live(t), c)
  {
    assert (t + [c])[..|t|] == t;
  }

  /** Appending an admissible call keeps the log legal. */
  lemma LegalSnoc(t: seq<TransportCall>, c: TransportCall)
    requires Legal(t) && CallOk(t, c)
    ensures Legal(t + [c])
  {
    forall i | 0 <= i < |t + [c]|
      ensures CallOk((t + [c])[..i], (t + [c])[i])
    {
      if i < |t| {
        assert (t + [c])[..i] == t[..i];
      } else {
        assert (t + [c])[..i] == t;
      }
    }
  }

  /** Appending a call other than a close keeps closes paired with disconnects. */
  lemma ClosesSnoc(t: seq<TransportCall>, c: TransportCall)
    requires ClosesFollowDisconnects(t)
    requires c.GattClose? ==> 0 < |t| && t[|t| - 1] == GattDisconnect(c.handle)
    ensures ClosesFollowDisconnects(t + [c])
  {
    forall i | 0 <= i < |t + [c]| && (t + [c])[i].GattClose?
      ensures 0 < i && (t + [c])[i - 1] == GattDisconnect((t + [c])[i].handle)
    {
      if i < |t| {
        assert (t + [c])[i] == t[i];
      }
    }
  }

  /** Opened only grows along a log. */
  lemma {:induction false} OpenedMonotone(t: seq<TransportCall>, j: nat, k: nat)
    requires j <= k <= |t|
    ensures Opened(t[..j]) <= Opened(t[..k])
    decreases k - j
  {
    if j < k {
      OpenedMonotone(t, j, k - 1);
      assert t[..k] == t[..k - 1] + [t[k - 1]];
      Snoc(t[..k - 1], t[k - 1]);
    }
  }

  /** In a legal log a connection, once closed, is never live again. */
  lemma {:induction false} ClosedStaysClosed(t: seq<TransportCall>, i: nat, k: nat)
    requires Legal(t) && i < k <= |t| && t[i].GattClose?
    ensures t[i].handle !in Live(t[..k])
    decreases k
  {
    var h := t[i].handle;
    var c := t[k - 1];
    assert t[..k] == t[..k - 1] + [c];
    Snoc(t[..k - 1], c);
    if k - 1 == i {
      assert Live(t[..k]) == Live(t[..i]) - {h};
    } else {
      ClosedStaysClosed(t, i, k - 1);
      if c.GattConnect? {
        assert CallOk(t[..k - 1], c);
        assert CallOk(t[..i], t[i]);
        OpenedMonotone(t, i, k - 1);
      }
    }
  }

  /** Each connection is closed at most once in a legal log. */
  lemma ClosedAtMostOnce(t: seq<TransportCall>, i: nat, j: nat)
    requires Legal(t) && i < j < |t|
    requires t[i].GattClose? && t[j].GattClose?
    ensures t[i].handle != t[j].handle
  {
    assert CallOk(t[..j], t[j]);
    ClosedStaysClosed(t, i, j);
  }
}
