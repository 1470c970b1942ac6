/**
 * Configuration descriptor of a composite device, usb/composite_device.c: its length is
 * kept up to date by bind and unbind, its bytes are printed from the tables of the drivers.
 */
module CompositeDevice {
  import opened Common

  type byte = x: int | 0 <= x < 256

  const DESCRIPTOR_TYPE_DEVICE: byte := 1
  const DESCRIPTOR_TYPE_CONFIGURATION: byte := 2
  const DESCRIPTOR_TYPE_STRING: byte := 3
  const DESCRIPTOR_TYPE_INTERFACE: byte := 4

  /** A descriptor begins with its length and its type. */
  type Descriptor = d: seq<byte> | 2 <= |d| < 256 && d[0] == |d| witness [2, 0]

  /** The table of a driver, which must not change while the driver is bound. */
  type Driver = seq<Descriptor>

  predicate Kept(descriptor: Descriptor) {
    && descriptor[1] != DESCRIPTOR_TYPE_DEVICE
    && descriptor[1] != DESCRIPTOR_TYPE_CONFIGURATION
    && descriptor[1] != DESCRIPTOR_TYPE_STRING
  }

  /** The descriptors of a driver that belong to the configuration, in order. */
  function Selected(driver: Driver): seq<Descriptor> {
    if driver == [] then [] else (if Kept(driver[0]) then [driver[0]] else []) + Selected(driver[1..])
  }

  function Interfaces(driver: Driver): nat {
    if driver == [] then 0
    else (if driver[0][1] == DESCRIPTOR_TYPE_INTERFACE then 1 else 0) + Interfaces(driver[1..])
  }

  function Bytes(descriptors: seq<Descriptor>): seq<byte> {
    if descriptors == [] then [] else descriptors[0] + Bytes(descriptors[1..])
  }

  lemma {:induction false} BytesJoin(a: seq<Descriptor>, b: seq<Descriptor>)
    ensures Bytes(a + b) == Bytes(a) + Bytes(b)
  {
    if a == [] {
      assert a + b == b;
    } else {
      var t := a[1..];
      BytesJoin(t, b);
      assert (a + b)[1..] == t + b && (a + b)[0] == a[0];
      assert Bytes(a + b) == a[0] + Bytes(t + b) && Bytes(a) == a[0] + Bytes(t);
      hide Bytes;
    }
  }

  lemma {:induction false} SelectedExtends(driver: Driver, k: nat)
    requires k < |driver|
    ensures Selected(driver[..k + 1]) == Selected(driver[..k]) + (if Kept(driver[k]) then [driver[k]] else [])
    ensures Interfaces(driver[..k + 1])
         == Interfaces(driver[..k]) + (if driver[k][1] == DESCRIPTOR_TYPE_INTERFACE then 1 else 0)
  {
    if k == 0 {
      assert driver[..1][1..] == [];
    } else {
      SelectedExtends(driver[1..], k - 1);
      assert driver[..k + 1][1..] == driver[1..][..k] && driver[..k][1..] == driver[1..][..k - 1];
    }
  }

  lemma {:induction false} BytesOfPrefix(driver: Driver, k: nat)
    requires k <= |driver|
    ensures |Bytes(Selected(driver[..k]))| <= |Bytes(Selected(driver))|
    ensures Interfaces(driver[..k]) <= Interfaces(driver)
    decreases |driver| - k
  {
    if k == |driver| {
      assert driver[..k] == driver;
    } else {
      BytesOfPrefix(driver, k + 1);
      SelectedExtends(driver, k);
      BytesJoin(Selected(driver[..k]), if Kept(driver[k]) then [driver[k]] else []);
    }
  }

  /** The descriptors of all drivers in the order of their binding. */
  function AllSelected(drivers: seq<Driver>): seq<Descriptor> {
    if drivers == [] then [] else AllSelected(drivers[..|drivers| - 1]) + Selected(drivers[|drivers| - 1])
  }

  function AllInterfaces(drivers: seq<Driver>): nat {
    if drivers == [] then 0 else AllInterfaces(drivers[..|drivers| - 1]) + Interfaces(drivers[|drivers| - 1])
  }

  lemma {:induction false} AllJoin(a: seq<Driver>, b: seq<Driver>)
    ensures AllSelected(a + b) == AllSelected(a) + AllSelected(b)
    ensures AllInterfaces(a + b) == AllInterfaces(a) + AllInterfaces(b)
  {
    if b == [] {
      assert a + b == a;
    } else {
      var n := |b| - 1;
      AllJoin(a, b[..n]);
      assert (a + b)[..|a + b| - 1] == a + b[..n] && (a + b)[|a + b| - 1] == b[n];
      AllStep(a + b);
      AllStep(b);
      hide AllSelected, AllInterfaces, Selected, Interfaces;
    }
  }

  lemma AllStep(drivers: seq<Driver>)
    requires drivers != []
    ensures AllSelected(drivers) == AllSelected(drivers[..|drivers| - 1]) + Selected(drivers[|drivers| - 1])
    ensures AllInterfaces(drivers) == AllInterfaces(drivers[..|drivers| - 1]) + Interfaces(drivers[|drivers| - 1])
  {
  }

  lemma AllOfOne(driver: Driver)
    ensures AllSelected([driver]) == Selected(driver) && AllInterfaces([driver]) == Interfaces(driver)
  {
    assert [driver][..0] == [];
    assert AllSelected([]) + Selected(driver) == Selected(driver);
  }

  function Length(driver: Driver): nat {
    |Bytes(Selected(driver))|
  }

  /** What one more descriptor of the table adds to the printed bytes. */
  lemma PrintedWith(driver: Driver, k: nat)
    requires k < |driver|
    ensures Bytes(Selected(driver[..k + 1])) == Bytes(Selected(driver[..k])) + (if Kept(driver[k]) then driver[k] else [])
    ensures Length(driver[..k + 1]) == Length(driver[..k]) + (if Kept(driver[k]) then driver[k][0] as nat else 0)
    ensures Length(driver[..k + 1]) <= Length(driver)
    ensures Interfaces(driver[..k + 1])
         == Interfaces(driver[..k]) + (if driver[k][1] == DESCRIPTOR_TYPE_INTERFACE then 1 else 0)
  {
    SelectedExtends(driver, k);
    BytesOfPrefix(driver, k + 1);
    BytesJoin(Selected(driver[..k]), if Kept(driver[k]) then [driver[k]] else []);
    BytesOfOne(driver[k]);
  }

  lemma BytesOfOne(descriptor: Descriptor)
    ensures Bytes([descriptor]) == descriptor && Bytes([]) == []
  {
    assert descriptor + Bytes([]) == descriptor;
  }

  lemma LengthOfBytes(driver: Driver)
    ensures Length(driver) == |Bytes(Selected(driver))|
  {
  }

  lemma PrintsNothing(driver: Driver)
    ensures Bytes(Selected(driver[..0])) == [] && Length(driver[..0]) == 0 && Interfaces(driver[..0]) == 0
  {
  }

  function AllLength(drivers: seq<Driver>): nat {
    |Bytes(AllSelected(drivers))|
  }

  function Tables(describe: nat -> Driver, entries: seq<nat>): (tables: seq<Driver>)
    ensures |tables| == |entries|
  {
    seq(|entries|, i requires 0 <= i < |entries| => describe(entries[i]))
  }

  /** One driver more changes the length by its own. */
  lemma LengthWith(describe: nat -> Driver, entries: seq<nat>, driver: nat)
    ensures AllLength(Tables(describe, entries + [driver])) == AllLength(Tables(describe, entries)) + Length(describe(driver))
    ensures AllInterfaces(Tables(describe, entries + [driver]))
         == AllInterfaces(Tables(describe, entries)) + Interfaces(describe(driver))
  {
    var before, table := Tables(describe, entries), describe(driver);
    assert Tables(describe, entries + [driver]) == before + [table];
    hide Bytes, Selected, AllSelected, AllInterfaces;
    AllJoin(before, [table]);
    AllOfOne(table);
    BytesJoin(AllSelected(before), Selected(table));
  }

  /** One driver less changes the length by its own. */
  lemma LengthWithout(describe: nat -> Driver, entries: seq<nat>, k: nat)
    requires k < |entries|
    ensures var rest := entries[..k] + entries[k + 1..];
            && AllLength(Tables(describe, entries))
               == AllLength(Tables(describe, rest)) + Length(describe(entries[k]))
            && AllInterfaces(Tables(describe, entries))
               == AllInterfaces(Tables(describe, rest)) + Interfaces(describe(entries[k]))
  {
    hide Bytes, Selected, AllSelected, AllInterfaces;
    var drivers := Tables(describe, entries);
    TablesLengthWithout(drivers, k);
    assert Tables(describe, entries[..k] + entries[k + 1..]) == drivers[..k] + drivers[k + 1..];
  }

  lemma TablesLengthWithout(drivers: seq<Driver>, k: nat)
    requires k < |drivers|
    ensures var rest := drivers[..k] + drivers[k + 1..];
            && AllLength(drivers) == AllLength(rest) + Length(drivers[k])
            && AllInterfaces(drivers) == AllInterfaces(rest) + Interfaces(drivers[k])
  {
    hide Bytes, Selected, AllSelected, AllInterfaces;
    var a, b := drivers[..k], drivers[k + 1..];
    assert drivers == a + ([drivers[k]] + b);
    AllJoin(a, [drivers[k]] + b);
    AllJoin([drivers[k]], b);
    AllJoin(a, b);
    AllOfOne(drivers[k]);
    BytesJoin(AllSelected(a), Selected(drivers[k]) + AllSelected(b));
    BytesJoin(Selected(drivers[k]), AllSelected(b));
    BytesJoin(AllSelected(a), AllSelected(b));
  }

  lemma LengthOfAll(drivers: seq<Driver>)
    ensures AllLength(drivers) == |Bytes(AllSelected(drivers))|
  {
  }

  lemma NothingPrinted(drivers: seq<Driver>)
    ensures AllLength(drivers[..0]) == 0 && Bytes(AllSelected(drivers[..0])) == []
  {
  }

  lemma TablesAt(describe: nat -> Driver, entries: seq<nat>)
    ensures forall i | 0 <= i < |entries| :: Tables(describe, entries)[i] == describe(entries[i])
  {
  }

  lemma PrefixFits(drivers: seq<Driver>, k: nat)
    requires k < |drivers|
    ensures AllLength(drivers[..k + 1]) == AllLength(drivers[..k]) + Length(drivers[k]) <= AllLength(drivers)
    ensures Bytes(AllSelected(drivers[..k + 1])) == Bytes(AllSelected(drivers[..k])) + Bytes(Selected(drivers[k]))
  {
    hide Bytes, Selected, AllInterfaces;
    assert drivers[..k + 1][..k] == drivers[..k];
    BytesJoin(AllSelected(drivers[..k]), Selected(drivers[k]));
    AllJoin(drivers[..k + 1], drivers[k + 1..]);
    BytesJoin(AllSelected(drivers[..k + 1]), AllSelected(drivers[k + 1..]));
    assert drivers == drivers[..k + 1] + drivers[k + 1..];
  }

  // Reading the configuration

  function Header(total: nat, interfaces: byte): Descriptor
    requires total < 0x10000
  {
    [9, DESCRIPTOR_TYPE_CONFIGURATION, total % 0x100, total / 0x100, interfaces, 1, 0, 0, 0]
  }

  /** Length field of the configuration descriptor, section 9.6.3 of USB 2.0. */
  function TotalLength(bytes: seq<byte>): nat
    requires 4 <= |bytes|
  {
    bytes[2] as nat + 0x100 * bytes[3] as nat
  }

  /** Walks from descriptor to descriptor by the length byte. */
  function Walk(bytes: seq<byte>): Option<seq<Descriptor>>
    decreases |bytes|
  {
    if bytes == [] then Some([])
    else if bytes[0] < 2 || |bytes| < bytes[0] then None
    else
      var rest := Walk(bytes[bytes[0]..]);
      if rest == None then None else Some([bytes[..bytes[0]]] + rest.value)
  }

  /** Walking over printed descriptors finds every one of them and ends at the end. */
  lemma {:induction false} WalkRecovers(descriptors: seq<Descriptor>)
    ensures Walk(Bytes(descriptors)) == Some(descriptors)
  {
    if descriptors == [] {
    } else {
      var first, bytes := descriptors[0], Bytes(descriptors);
      WalkRecovers(descriptors[1..]);
      assert bytes[..first[0]] == first && bytes[first[0]..] == Bytes(descriptors[1..]);
      assert descriptors == [first] + descriptors[1..];
    }
  }

  function Configuration(drivers: seq<Driver>, total: nat, interfaces: byte): seq<byte>
    requires total < 0x10000
  {
    Header(total, interfaces) + Bytes(AllSelected(drivers))
  }

  /** The host finds the header and the descriptors of the bound drivers, and wTotalLength is the end. */
  lemma HostReadsConfiguration(drivers: seq<Driver>, total: nat, interfaces: byte)
    requires total < 0x10000 && total == 9 + |Bytes(AllSelected(drivers))|
    ensures var bytes := Configuration(drivers, total, interfaces);
            && TotalLength(bytes) == |bytes| == total
            && Walk(bytes) == Some([Header(total, interfaces)] + AllSelected(drivers))
  {
    var all := [Header(total, interfaces)] + AllSelected(drivers);
    assert all[1..] == AllSelected(drivers);
    WalkRecovers(all);
  }

  class Device {
    // Tables of all drivers, by number
    const describe: nat -> Driver

    var entries: seq<nat>
    var configurationLength: nat
    var interfaceCount: nat

    ghost predicate Valid()
      reads this
    {
      && configurationLength == 9 + AllLength(Tables(describe, entries)) <= 0xFFFF
      && interfaceCount == AllInterfaces(Tables(describe, entries)) <= 0xFF
      && Distinct(entries)
    }

    /** `devInit`. */
    constructor (describe: nat -> Driver)
      ensures Valid() && entries == [] && this.describe == describe
    {
      this.describe := describe;
      entries, configurationLength, interfaceCount := [], 9, 0;
    }

    /** `computeDescriptionProperties`; the counters are 16 and 8 bits wide. */
    method ComputeDescriptionProperties(driver: Driver) returns (length: nat, interfaces: nat)
      ensures length == Length(driver) % 0x10000
      ensures interfaces == Interfaces(driver) % 0x100
    {
      PrintsNothing(driver);
      hide Bytes, Selected, Length, Interfaces;
      length, interfaces := 0, 0;
      var entry := 0;
      while entry < |driver|
        invariant entry <= |driver|
        invariant length == Length(driver[..entry]) % 0x10000
        invariant interfaces == Interfaces(driver[..entry]) % 0x100
      {
        PrintedWith(driver, entry);
        var header := driver[entry];
        if header[1] == DESCRIPTOR_TYPE_DEVICE || header[1] == DESCRIPTOR_TYPE_CONFIGURATION
           || header[1] == DESCRIPTOR_TYPE_STRING {
        } else {
          if header[1] == DESCRIPTOR_TYPE_INTERFACE {
            interfaces := (interfaces + 1) % 0x100;
          }
          length := (length + header[0]) % 0x10000;
        }
        entry := entry + 1;
      }
      assert driver[..entry] == driver;
    }

    /** `devBind`; the sizes must fit the fields, as the source asserts. */
    method Bind(driver: nat) returns (res: Result)
      requires Valid() && driver !in entries
      requires interfaceCount + Interfaces(describe(driver)) <= 0xFF
      requires configurationLength + Length(describe(driver)) <= 0xFFFF
      modifies this
      ensures Valid() && (res == E_OK || res == E_MEMORY)
      ensures entries == old(entries) + (if res == E_OK then [driver] else [])
    {
      hide Length, AllLength, Interfaces, AllInterfaces, Tables;
      var length, interfaces := ComputeDescriptionProperties(describe(driver));
      var pushed: bool := *;
      if pushed {
        LengthWith(describe, entries, driver);
        entries := entries + [driver];
        interfaceCount := interfaceCount + interfaces;
        configurationLength := configurationLength + length;
        return E_OK;
      } else {
        return E_MEMORY;
      }
    }

    /** `devUnbind`. */
    method Unbind(driver: nat)
      requires Valid() && driver in entries
      modifies this
      ensures Valid() && driver !in entries
      ensures exists k | 0 <= k < |old(entries)| && old(entries)[k] == driver ::
                entries == old(entries)[..k] + old(entries)[k + 1..]
    {
      hide Length, AllLength, Interfaces, AllInterfaces, Tables;
      var length, interfaces := ComputeDescriptionProperties(describe(driver));
      var k := 0;
      while entries[k] != driver
        invariant k < |entries| && driver !in entries[..k]
        decreases |entries| - k
      {
        k := k + 1;
      }
      LengthWithout(describe, entries, k);
      entries := entries[..k] + entries[k + 1..];
      interfaceCount := interfaceCount - interfaces;
      configurationLength := configurationLength - length;
    }

    /** `extendConfigurationDescriptor`: prints the descriptors of one driver. */
    method ExtendConfigurationDescriptor(driver: Driver, response: array<byte>, position: nat) returns (total: nat)
      requires position + Length(driver) <= response.Length
      modifies response
      ensures total == Length(driver)
      ensures response[..position] == old(response[..position])
      ensures response[..position + total] == old(response[..position]) + Bytes(Selected(driver))
    {
      PrintsNothing(driver);
      hide Bytes, Selected, Length;
      total := 0;
      var entry := 0;
      while entry < |driver|
        invariant entry <= |driver| && total == Length(driver[..entry]) && position + total <= response.Length
        invariant response[..position + total] == old(response[..position]) + Bytes(Selected(driver[..entry]))
      {
        PrintedWith(driver, entry);
        var header := driver[entry];
        if header[1] == DESCRIPTOR_TYPE_DEVICE || header[1] == DESCRIPTOR_TYPE_CONFIGURATION
           || header[1] == DESCRIPTOR_TYPE_STRING {
        } else {
          Print(header, response, position + total);
          total := total + header[0];
        }
        entry := entry + 1;
      }
      assert driver[..entry] == driver;
      LengthOfBytes(driver);
      assert response[..position] == response[..position + total][..position];
    }

    static method Print(descriptor: seq<byte>, response: array<byte>, position: nat)
      requires position + |descriptor| <= response.Length
      modifies response
      ensures response[..position + |descriptor|] == old(response[..position]) + descriptor
    {
      forall i | 0 <= i < |descriptor| {
        response[position + i] := descriptor[i];
      }
    }

    /** The loop of `configDescriptor` over the bound drivers. */
    method PrintDrivers(response: array<byte>, ghost header: seq<byte>)
      requires Valid() && configurationLength <= response.Length && |header| == 9 && response[..9] == header
      modifies response
      ensures response[..configurationLength] == header + Bytes(AllSelected(Tables(describe, entries)))
    {
      ghost var tables := Tables(describe, entries);
      NothingPrinted(tables);
      TablesAt(describe, entries);
      hide Bytes, Selected, Length, AllLength, AllSelected, AllInterfaces, Tables;
      var position, current := 9, 0;
      while current < |entries|
        invariant current <= |entries|
        invariant position == 9 + AllLength(tables[..current]) <= configurationLength
        invariant response[..position] == header + Bytes(AllSelected(tables[..current]))
      {
        PrefixFits(tables, current);
        var total := ExtendConfigurationDescriptor(describe(entries[current]), response, position);
        position := position + total;
        current := current + 1;
      }
      assert tables[..current] == tables;
    }

    /** The configuration branch of `handleDeviceRequest`, with `configDescriptor`. */
    method GetConfiguration(response: array<byte>) returns (responseLength: nat)
      requires Valid() && configurationLength <= response.Length
      modifies response
      ensures responseLength == configurationLength
      ensures response[..responseLength] == Configuration(Tables(describe, entries), configurationLength, interfaceCount)
      ensures 4 <= responseLength == TotalLength(response[..responseLength])
      ensures Walk(response[..responseLength])
           == Some([Header(configurationLength, interfaceCount)] + AllSelected(Tables(describe, entries)))
    {
      LengthOfAll(Tables(describe, entries));
      HostReadsConfiguration(Tables(describe, entries), configurationLength, interfaceCount);
      hide AllInterfaces, Tables, Bytes, AllSelected, Walk;
      var header := Header(configurationLength, interfaceCount);
      Print(header, response, 0);
      assert response[..9] == header;
      PrintDrivers(response, header);
      responseLength := configurationLength;
    }
  }
}
