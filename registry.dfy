/**
 * The list of devices discovered by the scan, kept in discovery order without
 * duplicates, and the labels the selection dialog shows for it.
 *
 * Two devices are the same device when their hardware addresses agree; this
 * is how the platform compares device objects, so it is what the list's
 * membership test uses.
 */
module Registry {
  import opened Ble

  /** `d`'s device is already in `list`. */
  predicate Contains(list: seq<Device>, d: Device)
  {
    exists i | 0 <= i < |list| :: list[i].address == d.address
  }

  /** No device occurs twice in `list`. */
  predicate NoDuplicates(list: seq<Device>)
  {
    forall i, j | 0 <= i < j < |list| :: list[i].address != list[j].address
  }

  /** The devices of `list`, identified by address. */
  function Addresses(list: seq<Device>): set<string>
  {
    set i | 0 <= i < |list| :: list[i].address
  }

  /** The addresses of the devices reported in a run of scan results. */
  function Reported(results: seq<Option<Device>>): set<string>
  {
    set i | 0 <= i < |results| && results[i].Some? :: results[i].value.address
  }

  /** One scan result: its device is appended when there is one and the list
      does not hold it yet. */
  function Record(list: seq<Device>, result: Option<Device>): (r: seq<Device>)
    ensures |list| <= |r| <= |list| + 1 && r[..|list|] == list
    ensures |r| == |list| + 1 <==> result.Some? && !Contains(list, result.value)
    ensures |r| == |list| + 1 ==> r[|list|] == result.value
    ensures Addresses(r) == Addresses(list) + (if result.Some? then {result.value.address} else {})
    ensures NoDuplicates(list) ==> NoDuplicates(r)
  {
    if result.Some? && !Contains(list, result.value) then list + [result.value] else list
  }

  /** A run of scan results, recorded one after the other. */
  function RecordAll(list: seq<Device>, results: seq<Option<Device>>): seq<Device>
    decreases |results|
  {
    if results == [] then list else RecordAll(Record(list, results[0]), results[1..])
  }

  /** A list without duplicates has one entry per address. */
  lemma {:induction false} DistinctCount(list: seq<Device>)
    requires NoDuplicates(list)
    ensures |Addresses(list)| == |list|
  {
    if list != [] {
      var init := list[..|list| - 1];
      var last := list[|list| - 1];
      assert NoDuplicates(init);
      DistinctCount(init);
      assert Addresses(list) == Addresses(init) + {last.address} by {
        forall a | a in Addresses(list) ensures a in Addresses(init) + {last.address} {
          var i :| 0 <= i < |list| && list[i].address == a;
          if i < |list| - 1 { assert init[i] == list[i]; }
        }
        forall a | a in Addresses(init) ensures a in Addresses(list) {
          var i :| 0 <= i < |init| && init[i].address == a;
          assert list[i] == init[i];
        }
      }
      assert last.address !in Addresses(init);
    }
  }

  /** The addresses of a run of results: the first one's and the rest's. */
  lemma ReportedCons(results: seq<Option<Device>>)
    requires results != []
    ensures Reported(results)
         == (if results[0].Some? then {results[0].value.address} else {}) + Reported(results[1..])
  {
    forall a | a in Reported(results)
      ensures a in (if results[0].Some? then {results[0].value.address} else {}) + Reported(results[1..])
    {
      var i :| 0 <= i < |results| && results[i].Some? && results[i].value.address == a;
      if 0 < i { assert results[1..][i - 1] == results[i]; }
    }
    forall a | a in Reported(results[1..]) ensures a in Reported(results) {
      var i :| 0 <= i < |results[1..]| && results[1..][i].Some? && results[1..][i].value.address == a;
      assert results[i + 1] == results[1..][i];
    }
  }

  /** However often a device is reported, it is listed once: after any run of
      scan results the list holds exactly one entry per address seen. */
  lemma {:induction false} RecordAllCounts(list: seq<Device>, results: seq<Option<Device>>)
    requires NoDuplicates(list)
    ensures NoDuplicates(RecordAll(list, results))
    ensures Addresses(RecordAll(list, results)) == Addresses(list) + Reported(results)
    ensures |RecordAll(list, results)| == |Addresses(list) + Reported(results)|
    decreases |results|
  {
    if results == [] {
      assert Reported(results) == {};
      DistinctCount(list);
    } else {
      var head := if results[0].Some? then {results[0].value.address} else {};
      var next := Record(list, results[0]);
      assert Addresses(next) == Addresses(list) + head;
      RecordAllCounts(next, results[1..]);
      ReportedCons(results);
      calc {
        Addresses(list) + Reported(results);
        Addresses(list) + (head + Reported(results[1..]));
        Addresses(next) + Reported(results[1..]);
      }
    }
  }

  /** Reporting a device a second time changes nothing. */
  lemma RecordIdempotent(list: seq<Device>, result: Option<Device>)
    ensures Record(Record(list, result), result) == Record(list, result)
  {
    var once := Record(list, result);
    if result.Some? && !Contains(list, result.value) {
      assert once[|list|].address == result.value.address;
    }
  }

  /** The text Java string concatenation gives a null name reference. */
  function NameText(name: Option<string>): string
  {
    if name.Some? then name.value else "null"
  }

  /** The dialog label of a device: its name followed by its address in parentheses. */
  function DisplayName(d: Device): string
  {
    NameText(d.name) + " (" + d.address + ")"
  }

  /** The dialog labels of a list, position by position. */
  function Labels(list: seq<Device>): seq<string>
  {
    seq(|list|, i requires 0 <= i < |list| => DisplayName(list[i]))
  }

  predicate IsUpperHex(c: char)
  {
    '0' <= c <= '9' || 'A' <= c <= 'F'
  }

  /** A hardware address as the platform writes it, "00:11:22:AA:BB:CC". */
  predicate ValidAddress(a: string)
  {
    |a| == 17 && forall i | 0 <= i < 17 :: if i % 3 == 2 then a[i] == ':' else IsUpperHex(a[i])
  }

  /** Devices with well-formed addresses that share a label share their address:
      the label tells the user which device they pick. */
  lemma LabelNamesAddress(a: Device, b: Device)
    requires ValidAddress(a.address) && ValidAddress(b.address)
    requires DisplayName(a) == DisplayName(b)
    ensures a.address == b.address
  {
    var na, nb := NameText(a.name), NameText(b.name);
    assert |na| == |nb|;
    assert a.address == DisplayName(a)[|na| + 2..|na| + 19];
    assert b.address == DisplayName(b)[|nb| + 2..|nb| + 19];
  }

  /** In a list without duplicates every label is distinct. */
  lemma LabelsDistinct(list: seq<Device>, i: nat, j: nat)
    requires NoDuplicates(list) && i < j < |list|
    requires ValidAddress(list[i].address) && ValidAddress(list[j].address)
    ensures Labels(list)[i] != Labels(list)[j]
  {
    if Labels(list)[i] == Labels(list)[j] {
      LabelNamesAddress(list[i], list[j]);
    }
  }

  /** Fills the dialog's label array, one entry per listed device. */
  method DeviceNames(devices: seq<Device>) returns (names: array<string>)
    ensures names.Length == |devices|
    ensures names[..] == Labels(devices)
  {
    names := new string[|devices|];
    for i := 0 to |devices|
      invariant forall k | 0 <= k < i :: names[k] == DisplayName(devices[k])
    {
      names[i] := DisplayName(devices[i]);
    }
  }
}
