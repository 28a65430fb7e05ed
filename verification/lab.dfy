/**
model/lab.go, model/machine.go, model/link.go: devices and collision domains as the objects they are. A device's slots point
at domains, and a domain's dictionary back at devices. Every method is proved against LabModel.
*/
module LabHeap {
  import opened Wrappers
  import opened Ordered
  import opened LabModel

  /** A slot of a device; without a domain it is a tombstone. */
  datatype Interface = Interface(number: int, domain: Domain?, mac: string)

  function SlotOf(x: Interface): Slot {
    Slot(x.number, if x.domain == null then None else Some(x.domain.name), x.mac)
  }

  function SlotsOf(xs: seq<Interface>): (r: seq<Slot>)
    ensures |r| == |xs| && forall i :: 0 <= i < |xs| ==> r[i] == SlotOf(xs[i])
  {
    seq(|xs|, i requires 0 <= i < |xs| => SlotOf(xs[i]))
  }

  lemma SlotsWith(xs: seq<Interface>, x: Interface, idx: nat)
    requires idx <= |xs|
    ensures SlotsOf(xs[..idx] + [x] + xs[idx..]) == SlotsOf(xs)[..idx] + [SlotOf(x)] + SlotsOf(xs)[idx..]
  {
    hide SlotOf;
  }

  lemma InsertedFrom(xs: seq<Interface>, x: Interface, idx: nat)
    requires idx <= |xs|
    ensures var all := xs[..idx] + [x] + xs[idx..];
            forall i :: 0 <= i < |all| ==> all[i] in xs || all[i] == x
  {
  }

  class Domain {
    const name: string
    var machines: Dict<string, Device>

    constructor (name: string)
      ensures this.name == name && machines == Dict([], map[])
    {
      this.name := name;
      machines := Dict([], map[]);
    }

    ghost function Value(): Link
      reads this
    {
      Link(name, machines.keys)
    }
  }

  class Device {
    const name: string
    var interfaces: seq<Interface>

    constructor (name: string)
      ensures this.name == name && interfaces == []
    {
      this.name := name;
      interfaces := [];
    }

    ghost function Slots(): (r: seq<Slot>)
      reads this
      ensures |r| == |interfaces| && forall i :: 0 <= i < |interfaces| ==> r[i] == SlotOf(interfaces[i])
    {
      SlotsOf(interfaces)
    }

    ghost function Value(): Machine
      reads this
    {
      Machine(name, Slots())
    }

    /** Binary search over the sorted slots. */
    method InterfaceIndex(n: int) returns (idx: nat, found: bool)
      requires SlotsSorted(Slots())
      ensures idx == Place(Slots(), n) && idx <= |interfaces| && (found <==> HasNumber(Slots(), n))
    {
      var lo, hi := 0, |interfaces|;
      assert forall i :: 0 <= i < |interfaces| ==> Slots()[i].number == interfaces[i].number;
      while lo < hi
        invariant 0 <= lo <= hi <= |interfaces|
        invariant forall i :: 0 <= i < lo ==> Slots()[i].number < n
        invariant forall i :: hi <= i < |interfaces| ==> Slots()[i].number >= n
      {
        var mid := (lo + hi) / 2;
        assert Slots()[mid].number == interfaces[mid].number;
        if interfaces[mid].number < n { lo := mid + 1; } else { hi := mid; }
      }
      idx := lo;
      found := idx < |interfaces| && interfaces[idx].number == n;
      PlaceUnique(Slots(), n, idx);
      assert found ==> Slots()[idx].number == n;
    }

    /** Keep the slots ordered by number. */
    method InsertInterface(iface: Interface)
      requires SlotsSorted(Slots())
      modifies `interfaces
      ensures Slots() == InsertSlot(old(Slots()), SlotOf(iface))
      ensures forall i :: 0 <= i < |interfaces| ==> interfaces[i] in old(interfaces) || interfaces[i] == iface
    {
      hide SlotsSorted, Place, SlotsOf;
      var idx, _ := InterfaceIndex(iface.number);
      SlotsWith(interfaces, iface, idx);
      InsertedFrom(interfaces, iface, idx);
      interfaces := interfaces[..idx] + [iface] + interfaces[idx..];
    }

    method AddInterface(domain: Domain, text: Text, number: Option<int>, mac: string) returns (outcome: Outcome)
      requires SlotsSorted(Slots()) && domain.machines.Valid()
      modifies `interfaces, domain`machines
      ensures (Value(), domain.Value(), outcome) == Attach(old(Value()), old(domain.Value()), text, number, mac)
      ensures domain.machines == if outcome.Done? then old(domain.machines).Set(name, this) else old(domain.machines)
      ensures domain.machines.Valid()
      ensures forall i :: 0 <= i < |interfaces| ==> interfaces[i] in old(interfaces) || interfaces[i].domain == domain
    {
      hide Place, InsertSlot, HasNumber, SlotsSorted;
      var n := if number.Some? then number.value else |interfaces|;
      var _, found := InterfaceIndex(n);
      if found { return Failed(InterfaceAlreadySet); }
      if name in domain.machines.values { return Failed(MachineAlreadyConnected); }
      if mac != "" && !text.macOk(mac) { return Failed(BadMac); }
      InsertInterface(Interface(n, domain, mac));
      domain.machines := domain.machines.Set(name, this);
      outcome := Done;
    }

    method RemoveInterface(domain: Domain) returns (outcome: Outcome)
      requires domain.machines.Valid()
      modifies `interfaces, domain`machines
      ensures (Value(), domain.Value(), outcome) == Detach(old(Value()), old(domain.Value()))
      ensures domain.machines == if outcome.Done? then old(domain.machines).Delete(name) else old(domain.machines)
      ensures domain.machines.Valid()
      ensures forall i :: 0 <= i < |interfaces| ==> interfaces[i] in old(interfaces) || interfaces[i].domain == null
    {
      if name !in domain.machines.values { return Failed(MachineNotConnected); }
      for i := 0 to |interfaces|
        invariant |interfaces| == |old(interfaces)| && domain.machines == old(domain.machines)
        invariant forall k :: 0 <= k < i ==>
                    interfaces[k] == if old(interfaces)[k].domain != null && old(interfaces)[k].domain.name == domain.name
                                     then Interface(old(interfaces)[k].number, null, "") else old(interfaces)[k]
        invariant forall k :: i <= k < |interfaces| ==> interfaces[k] == old(interfaces)[k]
      {
        var iface := interfaces[i];
        if iface.domain != null && iface.domain.name == domain.name {
          interfaces := interfaces[i := Interface(iface.number, null, "")];
        }
      }
      assert Slots() == Detached(old(Slots()), domain.name);
      DeleteIsWithout(domain.machines, name);
      domain.machines := domain.machines.Delete(name);
      outcome := Done;
    }
  }

  class Scenario {
    var machines: Dict<string, Device>
    var links: Dict<string, Domain>

    constructor ()
      ensures Valid() && View() == EMPTY
    {
      machines := Dict([], map[]);
      links := Dict([], map[]);
    }

    ghost function Machines(): (r: map<string, Machine>)
      reads this, machines.values.Values
      ensures r.Keys == machines.values.Keys && forall k :: k in machines.values ==> r[k] == machines.values[k].Value()
    {
      map k | k in machines.values :: machines.values[k].Value()
    }

    ghost function Links(): (r: map<string, Link>)
      reads this, links.values.Values
      ensures r.Keys == links.values.Keys && forall l :: l in links.values ==> r[l] == links.values[l].Value()
    {
      map l | l in links.values :: links.values[l].Value()
    }

    ghost function View(): Lab
      reads this, machines.values.Values, links.values.Values
    {
      Lab(Dict(machines.keys, Machines()), Dict(links.keys, Links()))
    }

    /** No two names share an object. */
    ghost predicate Apart()
      reads this
    {
      && machines.Valid() && links.Valid()
      && (forall j, k :: j in machines.values && k in machines.values && j != k ==> machines.values[j] != machines.values[k])
      && (forall j, k :: j in links.values && k in links.values && j != k ==> links.values[j] != links.values[k])
    }

    /** Devices and domains point at each other's own objects, and at none of another scenario. */
    ghost predicate DeviceWired(k: string)
      requires k in machines.values
      reads this, machines.values.Values
    {
      var d := machines.values[k];
      d.name == k && forall i :: 0 <= i < |d.interfaces| && d.interfaces[i].domain != null ==>
        d.interfaces[i].domain.name in links.values && links.values[d.interfaces[i].domain.name] == d.interfaces[i].domain
    }

    ghost predicate DomainWired(l: string)
      requires l in links.values
      reads this, links.values.Values
    {
      var d := links.values[l];
      d.name == l && d.machines.Valid() && forall k :: k in d.machines.values ==>
        k in machines.values && machines.values[k] == d.machines.values[k]
    }

    ghost predicate Wired()
      reads this, machines.values.Values, links.values.Values
    {
      && Apart()
      && (forall k :: k in machines.values ==> DeviceWired(k))
      && (forall l :: l in links.values ==> DomainWired(l))
    }

    ghost predicate Valid()
      reads this, machines.values.Values, links.values.Values
    {
      Wired() && Associated(View())
    }

    /** A new device, without interfaces, has come to those that were there. */
    twostate lemma DeviceAdded(name: string, new d: Device)
      requires old(Wired()) && name !in old(machines.values) && machines == old(machines).Set(name, d) && links == old(links)
      requires d.name == name && d.interfaces == [] && fresh(d)
      requires forall k :: k in old(machines.values) ==> unchanged(old(machines.values[k]))
      requires forall l :: l in old(links.values) ==> unchanged(old(links.values[l]))
      ensures Wired()
    {
      hide Machines, Links;
      forall k | k in machines.values
        ensures DeviceWired(k)
      {
        assert k != name ==> old(DeviceWired(k));
      }
      forall l | l in links.values
        ensures DomainWired(l)
      {
        assert old(DomainWired(l));
      }
    }

    /** Whatever its own name is. */
    twostate lemma DeviceSeen(name: string, new d: Device)
      requires name !in old(machines.values) && machines == old(machines).Set(name, d) && links == old(links)
      requires d.interfaces == []
      requires forall k :: k in old(machines.values) ==> unchanged(old(machines.values[k]))
      requires forall l :: l in old(links.values) ==> unchanged(old(links.values[l]))
      ensures View() == SetMachine(old(View()), name, Machine(d.name, []))
    {
      assert Machines() == old(Machines())[name := Machine(d.name, [])];
      assert Links() == old(Links());
    }

    /** A new domain, without devices, has come to those that were there. */
    twostate lemma DomainAdded(name: string, new d: Domain)
      requires old(Wired()) && name !in old(links.values) && links == old(links).Set(name, d) && machines == old(machines)
      requires d.name == name && d.machines == Dict([], map[]) && fresh(d)
      requires forall k :: k in old(machines.values) ==> unchanged(old(machines.values[k]))
      requires forall l :: l in old(links.values) ==> unchanged(old(links.values[l]))
      ensures Wired()
    {
      hide Machines, Links;
      forall k | k in machines.values
        ensures DeviceWired(k)
      {
        assert old(DeviceWired(k));
      }
      forall l | l in links.values
        ensures DomainWired(l)
      {
        assert l != name ==> old(DomainWired(l));
      }
    }

    twostate lemma DomainSeen(name: string, new d: Domain)
      requires name !in old(links.values) && links == old(links).Set(name, d) && machines == old(machines)
      requires d.name == name && d.machines == Dict([], map[])
      requires forall k :: k in old(machines.values) ==> unchanged(old(machines.values[k]))
      requires forall l :: l in old(links.values) ==> unchanged(old(links.values[l]))
      ensures View() == SetLink(old(View()), name, Link(name, []))
    {
      assert Machines() == old(Machines());
      assert Links() == old(Links())[name := Link(name, [])];
    }

    /** What adding an interface needs, whether or not all names fit: no object twice, and dictionaries that are some. */
    ghost predicate Sound()
      reads this, machines.values.Values, links.values.Values
    {
      && Apart()
      && (forall k :: k in machines.values ==> SlotsSorted(machines.values[k].Slots()))
      && (forall l :: l in links.values ==> links.values[l].machines.Valid())
    }

    lemma ValidIsSound()
      requires Valid()
      ensures Sound()
    {
      hide Machines, Links;
      forall k | k in machines.values
        ensures SlotsSorted(machines.values[k].Slots())
      {
        assert MachineOk(View(), k);
      }
      forall l | l in links.values
        ensures links.values[l].machines.Valid()
      {
        assert DomainWired(l);
      }
    }

    /** A new device, without interfaces, leaves the others sound. */
    twostate lemma SoundWithDevice(name: string, new d: Device)
      requires old(Sound()) && name !in old(machines.values) && machines == old(machines).Set(name, d) && links == old(links)
      requires d.interfaces == [] && fresh(d)
      requires forall k :: k in old(machines.values) ==> unchanged(old(machines.values[k]))
      requires forall l :: l in old(links.values) ==> unchanged(old(links.values[l]))
      ensures Sound()
    {
      assert forall k :: k in old(machines.values) ==> machines.values[k].Slots() == old(machines.values[k].Slots());
    }

    twostate lemma SoundWithDomain(name: string, new d: Domain)
      requires old(Sound()) && name !in old(links.values) && links == old(links).Set(name, d) && machines == old(machines)
      requires d.machines == Dict([], map[]) && fresh(d)
      requires forall k :: k in old(machines.values) ==> unchanged(old(machines.values[k]))
      requires forall l :: l in old(links.values) ==> unchanged(old(links.values[l]))
      ensures Sound()
    {
      assert forall k :: k in old(machines.values) ==> machines.values[k].Slots() == old(machines.values[k].Slots());
    }

    method GetOrNewMachine(text: Text, name: string) returns (m: Device?, outcome: Outcome)
      requires Valid()
      modifies `machines
      ensures View() == LabModel.GetOrNewMachine(old(View()), text, name).0
      ensures outcome == LabModel.GetOrNewMachine(old(View()), text, name).1
      ensures Sound() && (NameFits(old(View()), text, name) ==> Valid())
      ensures outcome.Done? ==> m != null && name in machines.values && machines.values[name] == m
      ensures forall k :: k in machines.values ==> fresh(machines.values[k]) || machines.values[k] in old(machines.values.Values)
    {
      hide Associated, Wired, IsDeviceName, Sound;
      ValidIsSound();
      if name in machines.values { return machines.values[name], Done; }
      if !IsDeviceName(text.strip(name)) { return null, Failed(BadDeviceName); }
      ghost var before := View();
      var d := new Device(text.strip(name));
      machines := machines.Set(name, d);
      DeviceSeen(name, d);
      SoundWithDevice(name, d);
      if text.strip(name) == name {
        NewMachineKeeps(before, text, name);
        DeviceAdded(name, d);
      }
      m, outcome := d, Done;
    }

    method GetOrNewLink(name: string) returns (l: Domain)
      requires Sound()
      modifies `links
      ensures View() == LabModel.GetOrNewLink(old(View()), name)
      ensures Sound() && (old(Valid()) ==> Valid())
      ensures name in links.values && links.values[name] == l
      ensures forall k :: k in links.values ==> fresh(links.values[k]) || links.values[k] in old(links.values.Values)
    {
      hide Associated, Wired, Sound;
      if name in links.values { return links.values[name]; }
      ghost var before, fair := View(), Valid();
      l := new Domain(name);
      links := links.Set(name, l);
      DomainSeen(name, l);
      SoundWithDomain(name, l);
      if fair {
        NewLinkKeeps(before, name);
        DomainAdded(name, l);
      }
    }

    /** One device and one domain, named by the pair, have changed, and only those. */
    twostate lemma PairSet(pair: (string, string))
      requires pair.0 in machines.values && pair.1 in links.values && unchanged(this)
      requires forall k :: k in machines.values && k != pair.0 ==> unchanged(machines.values[k])
      requires forall l :: l in links.values && l != pair.1 ==> unchanged(links.values[l])
      ensures View() == SetLink(SetMachine(old(View()), pair.0, machines.values[pair.0].Value()), pair.1, links.values[pair.1].Value())
    {
      hide Wired;
      var m, l := machines.values[pair.0].Value(), links.values[pair.1].Value();
      forall k | k in machines.values
        ensures Machines()[k] == old(Machines())[pair.0 := m][k]
      {
      }
      forall x | x in links.values
        ensures Links()[x] == old(Links())[pair.1 := l][x]
      {
      }
      assert Machines() == old(Machines())[pair.0 := m];
      assert Links() == old(Links())[pair.1 := l];
    }

    twostate lemma StaysWired(pair: (string, string))
      requires old(Wired()) && pair.0 in machines.values && pair.1 in links.values && unchanged(this)
      requires forall k :: k in machines.values && k != pair.0 ==> unchanged(machines.values[k])
      requires forall l :: l in links.values && l != pair.1 ==> unchanged(links.values[l])
      requires forall i :: 0 <= i < |machines.values[pair.0].interfaces| ==>
                 var x := machines.values[pair.0].interfaces[i];
                 x in old(machines.values[pair.0].interfaces) || x.domain == null || x.domain == links.values[pair.1]
      requires links.values[pair.1].machines.Valid()
      requires forall k :: k in links.values[pair.1].machines.values ==>
                 && k in machines.values && machines.values[k] == links.values[pair.1].machines.values[k]
      ensures Wired()
    {
      forall k | k in machines.values
        ensures DeviceWired(k)
      {
        assert old(DeviceWired(k)) && old(DomainWired(pair.1));
      }
      forall l | l in links.values
        ensures DomainWired(l)
      {
        assert old(DomainWired(l));
      }
    }

    /** A domain that has at most come to list the device stays wired, and so does the device. */
    twostate lemma AttachedWired(pair: (string, string))
      requires old(Wired()) && pair.0 in machines.values && pair.1 in links.values && unchanged(this)
      requires forall k :: k in machines.values && k != pair.0 ==> unchanged(machines.values[k])
      requires forall l :: l in links.values && l != pair.1 ==> unchanged(links.values[l])
      requires forall i :: 0 <= i < |machines.values[pair.0].interfaces| ==>
                 var x := machines.values[pair.0].interfaces[i];
                 x in old(machines.values[pair.0].interfaces) || x.domain == links.values[pair.1]
      requires || links.values[pair.1].machines == old(links.values[pair.1].machines)
               || links.values[pair.1].machines == old(links.values[pair.1].machines).Set(pair.0, machines.values[pair.0])
      ensures Wired()
    {
      assert old(DomainWired(pair.1));
      hide Wired, DeviceWired;
      StaysWired(pair);
    }

    /** Whatever the names are; where they fit, all that was associated still is. */
    method ConnectMachineToLink(text: Text, name: string, link: string, number: Option<int>, mac: string)
      returns (outcome: Outcome)
      requires Valid()
      modifies this, machines.values.Values, links.values.Values
      ensures View() == Connect(old(View()), text, name, link, number, mac).0
      ensures outcome == Connect(old(View()), text, name, link, number, mac).1
      ensures NameFits(old(View()), text, name) <==> Valid()
    {
      hide Associated, Wired, Sound, NameFits, LabModel.GetOrNewMachine, LabModel.GetOrNewLink, LabModel.AddInterface;
      ghost var before := View();
      ConnectKeepsExactly(before, text, name, link, number, mac);
      var m: Device?;
      m, outcome := GetOrNewMachine(text, name);
      if outcome.Failed? { return; }
      var l := GetOrNewLink(link);
      outcome := AddTo(m, l, text, name, link, number, mac);
    }

    lemma PairReady(name: string, link: string)
      requires Valid() && name in machines.values && link in links.values
      ensures DeviceWired(name) && DomainWired(link) && SlotsSorted(machines.values[name].Slots())
      ensures machines.values[name].name == name
      ensures View().machines.values[name] == machines.values[name].Value()
      ensures View().links.values[link] == links.values[link].Value()
    {
      assert MachineOk(View(), name);
    }

    lemma OthersApart(name: string, link: string)
      requires Sound() && name in machines.values && link in links.values
      ensures forall k :: k in machines.values && k != name ==> machines.values[k] != machines.values[name]
      ensures forall l :: l in links.values && l != link ==> links.values[l] != links.values[link]
    {
    }

    /** The interface is attached, and that is all that differs. */
    method AttachTo(m: Device, l: Domain, text: Text, name: string, link: string, number: Option<int>, mac: string)
      returns (outcome: Outcome)
      requires Sound() && name in machines.values && machines.values[name] == m
      requires link in links.values && links.values[link] == l
      modifies m`interfaces, l`machines
      ensures View() == LabModel.AddInterface(old(View()), text, name, link, number, mac).0
      ensures outcome == LabModel.AddInterface(old(View()), text, name, link, number, mac).1
      ensures l.machines == if outcome.Done? then old(l.machines).Set(m.name, m) else old(l.machines)
      ensures l.machines.Valid()
      ensures forall i :: 0 <= i < |m.interfaces| ==> m.interfaces[i] in old(m.interfaces) || m.interfaces[i].domain == l
    {
      hide Attach, SlotsSorted, Machines, Links;
      outcome := m.AddInterface(l, text, number, mac);
      PairSet((name, link));
    }

    method AddTo(m: Device, l: Domain, text: Text, name: string, link: string, number: Option<int>, mac: string)
      returns (outcome: Outcome)
      requires Sound() && name in machines.values && machines.values[name] == m
      requires link in links.values && links.values[link] == l
      modifies m`interfaces, l`machines
      ensures View() == LabModel.AddInterface(old(View()), text, name, link, number, mac).0
      ensures outcome == LabModel.AddInterface(old(View()), text, name, link, number, mac).1
      ensures old(Valid()) ==> Valid()
    {
      hide Associated, LabModel.AddInterface, SlotsSorted, Machines, Links, Sound, Wired;
      ghost var before, fair := View(), Valid();
      if fair { PairReady(name, link); }
      OthersApart(name, link);
      outcome := AttachTo(m, l, text, name, link, number, mac);
      if fair {
        AddKeeps(before, text, name, link, number, mac);
        AttachedWired((name, link));
      }
    }

    method RemoveInterface(m: Device, l: Domain, name: string, link: string) returns (outcome: Outcome)
      requires Valid() && name in machines.values && machines.values[name] == m
      requires link in links.values && links.values[link] == l
      modifies m`interfaces, l`machines
      ensures (View(), outcome) == LabModel.RemoveInterface(old(View()), name, link)
      ensures Valid()
    {
      hide Associated, Detach, SlotsSorted, Machines, Links;
      RemoveInterfaceKeeps(View(), name, link);
      PairReady(name, link);
      outcome := m.RemoveInterface(l);
      PairSet((name, link));
      StaysWired((name, link));
    }

    /** Only the devices of one domain have changed, and none has come. */
    twostate lemma DomainChanged(link: string)
      requires old(Wired()) && link in links.values && unchanged(this)
      requires forall k :: k in machines.values ==> unchanged(machines.values[k])
      requires forall l :: l in links.values && l != link ==> unchanged(links.values[l])
      requires links.values[link].machines.Valid()
      requires forall k :: k in links.values[link].machines.values ==>
                 && k in old(links.values[link].machines.values)
                 && links.values[link].machines.values[k] == old(links.values[link].machines.values[k])
      ensures Wired()
    {
      hide Machines, Links;
      forall k | k in machines.values
        ensures DeviceWired(k)
      {
        assert old(DeviceWired(k));
      }
      forall l | l in links.values
        ensures DomainWired(l)
      {
        assert old(DomainWired(l));
      }
    }

    twostate lemma DomainShown(link: string)
      requires link in links.values && unchanged(this)
      requires forall k :: k in machines.values ==> unchanged(machines.values[k])
      requires forall l :: l in links.values && l != link ==> unchanged(links.values[l])
      ensures Links() == old(Links())[link := links.values[link].Value()] && Machines() == old(Machines())
    {
      assert Links() == old(Links())[link := links.values[link].Value()];
      assert Machines() == old(Machines());
    }

    /** One slot's worth of leaving. */
    method LeaveDomain(d: Domain, link: string, name: string)
      requires Wired() && link in links.values && links.values[link] == d && name in d.machines.values
      modifies d`machines
      ensures Wired() && Machines() == old(Machines())
      ensures Links() == old(Links())[link := Link(link, Without(old(Links())[link].attached, name))]
    {
      assert DomainWired(link);
      DeleteIsWithout(d.machines, name);
      d.machines := d.machines.Delete(name);
      DomainChanged(link);
      DomainShown(link);
    }

    ghost function LinkView(): Dict<string, Link>
      reads this, links.values.Values
    {
      Dict(links.keys, Links())
    }

    method LeaveDomains(m: Device, name: string) returns (outcome: Outcome)
      requires Wired() && name in machines.values && machines.values[name] == m
      modifies links.values.Values
      ensures Wired() && Machines() == old(Machines())
      ensures (LinkView(), outcome) == LeaveLinks(old(LinkView()), old(m.Slots()), name)
    {
      hide Wired, Machines, Links;
      ghost var slots := m.Slots();
      assert slots[0..] == slots;
      for i := 0 to |m.interfaces|
        invariant Wired() && Machines() == old(Machines()) && m.Slots() == slots
        invariant LeaveLinks(LinkView(), slots[i..], name) == LeaveLinks(old(LinkView()), slots, name)
      {
        var iface := m.interfaces[i];
        assert slots[i] == SlotOf(iface) && slots[i..][1..] == slots[i + 1..];
        if iface.domain == null { return Failed(NoneHasNoLink); }
        SlotWired(name, i);
        if name !in iface.domain.machines.values { return Failed(MissingKey); }
        LeaveDomain(iface.domain, iface.domain.name, name);
      }
      outcome := Done;
    }

    lemma SlotWired(name: string, i: nat)
      requires Wired() && name in machines.values && i < |machines.values[name].interfaces|
      requires machines.values[name].interfaces[i].domain != null
      ensures var d := machines.values[name].interfaces[i].domain;
              && d.name in links.values && links.values[d.name] == d
              && Links()[d.name] == d.Value() && (name in d.machines.keys <==> name in d.machines.values)
    {
      assert DeviceWired(name);
      assert DomainWired(machines.values[name].interfaces[i].domain.name);
    }

    lemma MachinesValid()
      requires Wired()
      ensures machines.Valid() && View().machines.Valid()
    {
    }

    /** A device has gone from the scenario, and nothing else has changed. */
    twostate lemma DeviceGone(name: string)
      requires old(machines).Valid() && machines == old(machines).Delete(name) && links == old(links)
      requires forall k :: k in old(machines.values) ==> unchanged(old(machines.values[k]))
      requires forall l :: l in old(links.values) ==> unchanged(old(links.values[l]))
      ensures Machines() == old(Machines()) - {name} && Links() == old(Links())
    {
      hide Machines, Links;
      LinksSame();
      MachinesLess(name);
    }

    twostate lemma MachinesLess(name: string)
      requires machines.values == old(machines.values) - {name}
      requires forall k :: k in old(machines.values) ==> unchanged(old(machines.values[k]))
      ensures Machines() == old(Machines()) - {name}
    {
      hide Links;
    }

    twostate lemma LinksSame()
      requires links == old(links) && forall l :: l in old(links.values) ==> unchanged(old(links.values[l]))
      ensures Links() == old(Links())
    {
      hide Machines;
    }

    twostate lemma StillWired(name: string)
      requires old(Wired()) && machines == old(machines).Delete(name) && links == old(links)
      requires forall k :: k in old(machines.values) ==> unchanged(old(machines.values[k]))
      requires forall l :: l in old(links.values) ==> unchanged(old(links.values[l]))
      requires Associated(View())
      ensures Wired()
    {
      forall k | k in machines.values
        ensures DeviceWired(k)
      {
        assert old(DeviceWired(k));
      }
      forall l | l in links.values
        ensures DomainWired(l)
      {
        assert old(DomainWired(l));
        assert LinkOk(View(), l);
      }
    }

    method Drop(name: string)
      requires Wired() && View().machines.Valid()
      modifies `machines
      ensures View() == Lab(old(View()).machines.Delete(name), old(View()).links)
      ensures Associated(View()) ==> Wired()
    {
      hide Machines, Links, Associated, DeviceWired, DomainWired;
      DeleteSame(machines, View().machines, name);
      machines := machines.Delete(name);
      DeviceGone(name);
      if Associated(View()) { StillWired(name); }
    }

    /** The device leaves its domains slot after slot, and then the scenario; a tombstone stops that where it is met. */
    method RemoveMachine(name: string) returns (outcome: Outcome)
      requires Valid()
      modifies `machines, links.values.Values
      ensures old(View()).machines.Valid() && (View(), outcome) == LabModel.RemoveMachine(old(View()), name)
      ensures Wired() && (outcome.Done? ==> Valid())
    {
      hide Wired, Associated, Machines, Links, LeaveLinks, LinkView;
      MachinesValid();
      if name !in machines.values { return Failed(MachineNotFound); }
      RemovedKeeps(View(), name);
      SeenAs(name);
      outcome := LeaveDomains(machines.values[name], name);
      SeenAs(name);
      if outcome.Failed? { return; }
      MachinesValid();
      Drop(name);
    }

    lemma SeenAs(name: string)
      requires name in machines.values
      ensures View() == Lab(Dict(machines.keys, Machines()), LinkView())
      ensures name in Machines() && Machines()[name].slots == machines.values[name].Slots()
    {
    }
  }

  lemma RemovedKeeps(lab: Lab, name: string)
    requires Associated(lab) && name in lab.machines.values
    ensures var (r, outcome) := LabModel.RemoveMachine(lab, name); outcome == Done ==> Associated(r)
  {
    AssociatedListed(lab, name);
    LeaveLinksLeaves(lab.links, lab.machines.values[name].slots, name);
    if !HasTombstone(lab.machines.values[name].slots) { RemoveKeeps(lab, name); }
  }

  lemma {:induction false} PlaceUnique(slots: seq<Slot>, n: int, idx: nat)
    requires SlotsSorted(slots) && idx <= |slots|
    requires forall i :: 0 <= i < idx ==> slots[i].number < n
    requires forall i :: idx <= i < |slots| ==> slots[i].number >= n
    ensures Place(slots, n) == idx && (HasNumber(slots, n) <==> idx < |slots| && slots[idx].number == n)
  {
    PlaceIs(slots, n, idx);
    assert forall i :: idx < i < |slots| ==> slots[i].number > slots[idx].number;
  }

  lemma {:induction false} PlaceIs(slots: seq<Slot>, n: int, idx: nat)
    requires idx <= |slots|
    requires forall i :: 0 <= i < idx ==> slots[i].number < n
    requires forall i :: idx <= i < |slots| ==> slots[i].number >= n
    ensures Place(slots, n) == idx
  {
    if idx > 0 { PlaceIs(slots[1..], n, idx - 1); }
  }

  lemma {:induction false} WithoutAt(names: seq<string>, name: string)
    requires Distinct(names) && name in names
    ensures Without(names, name) == names[..IndexOf(names, name)] + names[IndexOf(names, name) + 1..]
  {
    hide IndexOf, Without, Distinct;
    var rest := names[1..];
    FirstName(names, name);
    if names[0] == name {
      Whole(rest);
    } else {
      WithoutAt(rest, name);
      var i := IndexOf(rest, name);
      CutShifted(names, i);
      Associate([names[0]], rest[..i], rest[i + 1..]);
    }
  }

  lemma FirstName(names: seq<string>, name: string)
    requires Distinct(names) && name in names
    ensures Distinct(names[1..]) && names[..0] == []
    ensures names[0] == name ==> Without(names, name) == names[1..] && IndexOf(names, name) == 0
    ensures names[0] != name ==>
              && name in names[1..] && Without(names, name) == [names[0]] + Without(names[1..], name)
              && IndexOf(names, name) == IndexOf(names[1..], name) + 1
  {
    assert names[0] == name ==> name !in names[1..];
    Whole(Without(names[1..], name));
  }

  /** Deleting depends on the keys only. */
  lemma DeleteSame<V, W>(d: Dict<string, V>, e: Dict<string, W>, name: string)
    requires d.Valid() && d.keys == e.keys && d.values.Keys == e.values.Keys
    ensures e.Valid() && d.Delete(name).keys == e.Delete(name).keys
  {
  }

  lemma DeleteIsWithout<V>(d: Dict<string, V>, name: string)
    requires d.Valid() && name in d.values
    ensures d.Delete(name).keys == Without(d.keys, name)
  {
    WithoutAt(d.keys, name);
  }
}
