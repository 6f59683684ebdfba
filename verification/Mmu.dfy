/** The memory unit as the simulator keeps it (`mmu_t`): raw memory, the list of
    devices and the descriptor table, updated in place. */
module MmuObject {
  import opened Words
  import opened Isa
  import opened Memory
  import opened Devices

  class Device {
    var next: Device?
    var typecode: Word
    var vendor: seq<Byte>
    var irq: Word
    var ioAddrBase: Word
    var ioAddrLen: Word

    constructor (typecode: Word, vendor: seq<Byte>, irq: Word, ioAddrLen: Word)
      ensures next == null && GetInfo() == Info(typecode, ioAddrLen, irq, vendor)
    {
      next := null;
      this.typecode, this.vendor, this.irq := typecode, vendor, irq;
      ioAddrBase, this.ioAddrLen := 0, ioAddrLen;
    }

    function GetInfo(): Info
      reads this
    {
      Info(typecode, ioAddrLen, irq, vendor)
    }

    function Place(): Placed
      reads this
    {
      Placed(GetInfo(), ioAddrBase)
    }
  }

  ghost function Places(devices: seq<Device>): seq<Placed>
    reads devices
  {
    if devices == [] then []
    else Places(devices[..|devices| - 1]) + [devices[|devices| - 1].Place()]
  }

  lemma PlacesAppend(s: seq<Device>, dev: Device)
    ensures Places(s + [dev]) == Places(s) + [dev.Place()]
  {
    assert (s + [dev])[..|s|] == s;
  }

  function Last(s: seq<Device>): Device? {
    if s == [] then null else s[|s| - 1]
  }

  predicate Distinct(s: seq<Device>) {
    forall i, j | 0 <= i < j < |s| :: s[i] != s[j]
  }

  /** Behind position `lo`, each device's `next` is the one before it. */
  ghost predicate LinksBack(s: seq<Device>, lo: nat)
    reads set i | lo < i < |s| :: s[i]
  {
    forall i {:trigger s[i].next} | lo < i < |s| :: s[i].next == s[i - 1]
  }

  ghost predicate Chain(s: seq<Device>)
    reads s
  {
    (s != [] ==> s[0].next == null) && LinksBack(s, 0)
  }

  lemma ChainAppend(s: seq<Device>, dev: Device)
    requires Chain(s) && Distinct(s) && dev !in s && dev.next == Last(s)
    ensures Chain(s + [dev]) && Distinct(s + [dev])
  {
    var t := s + [dev];
    forall i | 0 < i < |t| ensures t[i].next == t[i - 1] {
      if i < |s| { assert s[i].next == s[i - 1]; }
    }
  }

  lemma ChainTail(s: seq<Device>, k: nat)
    requires Chain(s) && Distinct(s) && k < |s|
    ensures LinksBack(s, k) && s[k] !in set i | k < i < |s| :: s[i]
  {
  }

  class Mmu {
    const pmem: array<Byte>
    const descriptors: array<Descriptor>
    const sizeKseg0: Word
    const sizeKseg1: Word
    const sizeKuseg: Word
    var nextIoRegister: Word
    var devices: Device?

    /** The devices added so far, oldest first. */
    ghost var order: seq<Device>

    predicate Sized() {
      sizeKseg0 == sizeKseg1 == SizeKseg(pmem.Length) && sizeKuseg == SizeKuseg(pmem.Length) &&
      descriptors.Length == MAX_IO_DEVICES
    }

    /** The list holds every device, newest first. */
    ghost predicate Linked()
      reads this, order
    {
      devices == Last(order) && Chain(order) && Distinct(order)
    }

    ghost predicate Valid()
      reads this, order
    {
      Sized() && Linked()
    }

    ghost function View(): Bus
      reads this, order, descriptors
    {
      Bus(nextIoRegister, Places(order), descriptors[..])
    }

    /** `mmu_init` */
    constructor (size: nat)
      ensures Valid() && View() == EmptyBus() && order == [] && fresh(pmem) && fresh(descriptors)
      ensures pmem.Length == size && forall i | 0 <= i < size :: pmem[i] == 0
    {
      pmem := new Byte[size](_ => 0);
      descriptors := new Descriptor[MAX_IO_DEVICES](_ => NO_DESCRIPTOR);
      nextIoRegister := IO_REGISTER_AREA;
      sizeKseg0, sizeKseg1, sizeKuseg := SizeKseg(size), SizeKseg(size), SizeKuseg(size);
      devices := null;
      order := [];
      new;
      assert descriptors[..] == EmptyTable();
    }

    /** `mmu_read`. An address outside the plain memory is reported, not followed. */
    method Read(vaddr: Word, op: OpSize) returns (exception: Exception, dst: Word, outside: bool)
      requires Sized()
      ensures ReadResult(exception, dst, outside) == Memory.Read(pmem[..], vaddr, op)
    {
      exception, dst, outside := NoException, 0, true;
      if vaddr >= IO_DESCRIPTOR_AREA {
        return;
      }
      var paddr := TranslateVaddr(vaddr);
      var aaddr := TranslatePaddr(paddr, sizeKseg0, sizeKseg1, sizeKuseg);
      if aaddr.Some? && aaddr.value + Width(op) <= pmem.Length {
        dst := GetBig(pmem[..], aaddr.value, op);
        outside := false;
      }
    }

    /** `mmu_write` */
    method Write(vaddr: Word, src: Word, op: OpSize) returns (exception: Exception, outside: bool)
      requires Sized()
      modifies pmem
      ensures WriteResult(exception, pmem[..], outside) == Memory.Write(old(pmem[..]), vaddr, src, op)
    {
      exception, outside := NoException, true;
      if vaddr >= IO_REGISTER_AREA {
        return;
      } else if vaddr >= IO_DESCRIPTOR_AREA {
        return AddressErrorStore, false;
      }
      var paddr := TranslateVaddr(vaddr);
      var aaddr := TranslatePaddr(paddr, sizeKseg0, sizeKseg1, sizeKuseg);
      if aaddr.Some? && aaddr.value + Width(op) <= pmem.Length {
        outside := false;
        SetBigAt(aaddr.value, src, op);
      }
    }

    /** SET_BIGBYTE, SET_BIGHALF and SET_BIGWORD, byte by byte. */
    method SetBigAt(i: nat, value: Word, op: OpSize)
      requires i + Width(op) <= pmem.Length
      modifies pmem
      ensures pmem[..] == SetBig(old(pmem[..]), i, value, op)
    {
      match op {
        case OpByte =>
          pmem[i] := value % 0x100;
        case OpHalf =>
          pmem[i] := value / 0x100 % 0x100;
          pmem[i + 1] := value % 0x100;
        case OpWord =>
          pmem[i] := value / 0x100_0000;
          pmem[i + 1] := value / 0x1_0000 % 0x100;
          pmem[i + 2] := value / 0x100 % 0x100;
          pmem[i + 3] := value % 0x100;
      }
    }

    /** `get_free_descriptor` */
    method GetFreeDescriptor() returns (slot: Option<nat>)
      requires Sized()
      ensures slot == FirstFree(descriptors[..], 0)
    {
      var i := 0;
      while i < MAX_IO_DEVICES
        invariant i <= MAX_IO_DEVICES
        invariant FirstFree(descriptors[..], 0) == FirstFree(descriptors[..], i)
      {
        var dev := Reversed(descriptors[i]);
        if dev.typecode == 0 {
          return Some(i);
        }
        i := i + 1;
      }
      slot := None;
    }

    /** `device_descriptor_add`: sets the fields of the free slot, then reverses
        them in place. Nothing happens when the table is full. */
    method DeviceDescriptorAdd(dev: Device)
      requires Sized()
      modifies descriptors
      ensures descriptors[..] == AddToTable(old(descriptors[..]), dev.Place())
    {
      hide Reversed, FieldsOf, FirstFree;
      var slot := GetFreeDescriptor();
      if slot.None? {
        return;
      }
      descriptors[slot.value] := FieldsOf(dev.Place());
      descriptors[slot.value] := Reversed(descriptors[slot.value]);
    }

    /** The list runs in a circle: from its newest entry, which is the k-th device,
        to the last one added and back. */
    ghost predicate Circular(k: nat)
      requires k < |order|
      reads this, order
    {
      devices == order[k] && order[k].next == Last(order) && LinksBack(order, k)
    }

    /** `mmu_add_device`. A device that is in the list already gets new registers
        and one more descriptor, and the list becomes circular. */
    method AddDevice(dev: Device?) returns (ghost k: nat)
      requires Valid()
      modifies this, dev, descriptors
      ensures dev == null ==> Valid() && View() == old(View()) && order == old(order)
      ensures dev != null && dev !in old(order) ==>
                Valid() && order == old(order) + [dev] && devices == dev &&
                View() == Add(old(View()), old(dev.GetInfo()))
      ensures dev != null && dev in old(order) ==>
                order == old(order) && k < |order| && order[k] == dev && Circular(k) &&
                dev.Place() == Placed(old(dev.GetInfo()), old(nextIoRegister)) &&
                nextIoRegister == Wrap(old(nextIoRegister) + old(dev.ioAddrLen)) &&
                descriptors[..] == AddToTable(old(descriptors[..]), dev.Place())
    {
      hide Wrap, AddToTable, Linked, Circular, Places;
      k := 0;
      if dev == null {
        return;
      }
      k := Enlist(dev);
      DeviceDescriptorAdd(dev);
    }

    /** The first half of `mmu_add_device`: registers and list. */
    method Enlist(dev: Device) returns (ghost k: nat)
      requires Valid()
      modifies this, dev
      ensures nextIoRegister == Wrap(old(nextIoRegister) + old(dev.ioAddrLen))
      ensures dev.Place() == Placed(old(dev.GetInfo()), old(nextIoRegister))
      ensures dev !in old(order) ==>
                Linked() && order == old(order) + [dev] && devices == dev &&
                Places(order) == old(Places(order)) + [dev.Place()]
      ensures dev in old(order) ==> order == old(order) && k < |order| && order[k] == dev && Circular(k)
    {
      hide Wrap, Chain, Distinct, Places, LinksBack;
      k := 0;
      if dev in order {
        k :| k < |order| && order[k] == dev;
        ChainTail(order, k);
      }
      dev.ioAddrBase := nextIoRegister;
      nextIoRegister := Wrap(nextIoRegister + dev.ioAddrLen);
      dev.next := devices;
      devices := dev;
      if dev !in order {
        ChainAppend(order, dev);
        PlacesAppend(order, dev);
        order := order + [dev];
      }
    }
  }
}
