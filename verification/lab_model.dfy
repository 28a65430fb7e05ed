/**
model/lab.go and model/machine.go, on values: devices, collision domains, and the two-way association between them. A device
has numbered interface slots, some of which may be left over from interfaces that were removed; a collision domain lists
the devices attached to it.
*/
module LabModel {
  import opened Wrappers
  import opened Ordered

  /** A slot without a link is a tombstone: its number stays taken. */
  datatype Slot = Slot(number: int, link: Option<string>, mac: string)

  datatype Machine = Machine(name: string, slots: seq<Slot>)

  /** The names of the attached devices, in the order in which they were attached. */
  datatype Link = Link(name: string, attached: seq<string>)

  datatype Lab = Lab(machines: Dict<string, Machine>, links: Dict<string, Link>)

  datatype Error =
    | InterfaceAlreadySet | MachineAlreadyConnected | BadMac | MachineNotConnected
    | MachineNotFound | BadDeviceName | NoneHasNoLink | MissingKey

  datatype Outcome = Done | Failed(error: Error)

  /** What the model leaves to others: stripping a name, and whether a MAC address is well formed. */
  datatype Text = Text(strip: string -> string, macOk: string -> bool)

  // ----- slots -----

  predicate SlotsSorted(slots: seq<Slot>) {
    forall i, j :: 0 <= i < j < |slots| ==> slots[i].number < slots[j].number
  }

  predicate HasNumber(slots: seq<Slot>, n: int) {
    exists i :: 0 <= i < |slots| && slots[i].number == n
  }

  /** The first slot whose number is not below n. */
  function Place(slots: seq<Slot>, n: int): (i: nat)
    ensures i <= |slots| && (forall k :: 0 <= k < i ==> slots[k].number < n) && (i < |slots| ==> slots[i].number >= n)
  {
    if slots == [] || slots[0].number >= n then 0 else Place(slots[1..], n) + 1
  }

  function InsertSlot(slots: seq<Slot>, s: Slot): seq<Slot> {
    slots[..Place(slots, s.number)] + [s] + slots[Place(slots, s.number)..]
  }

  /** How many live interfaces a device has on a link. */
  function LiveOn(slots: seq<Slot>, link: string): nat {
    if slots == [] then 0 else (if slots[0].link == Some(link) then 1 else 0) + LiveOn(slots[1..], link)
  }

  /** The interfaces on a link become tombstones. */
  function Detached(slots: seq<Slot>, link: string): (r: seq<Slot>)
    ensures |r| == |slots|
    ensures forall i :: 0 <= i < |slots| ==> r[i] == if slots[i].link == Some(link) then Slot(slots[i].number, None, "") else slots[i]
  {
    seq(|slots|, i requires 0 <= i < |slots| =>
      if slots[i].link == Some(link) then Slot(slots[i].number, None, "") else slots[i])
  }

  // ----- the operations -----

  predicate IsDeviceName(name: string) {
    1 <= |name| <= 30 && forall i :: 0 <= i < |name| ==>
      ('a' <= name[i] <= 'z') || ('0' <= name[i] <= '9') || name[i] == '_'
  }

  function GetOrNewMachine(lab: Lab, text: Text, name: string): (Lab, Outcome) {
    if name in lab.machines.values then (lab, Done)
    else if !IsDeviceName(text.strip(name)) then (lab, Failed(BadDeviceName))
    else (lab.(machines := lab.machines.Set(name, Machine(text.strip(name), []))), Done)
  }

  function GetOrNewLink(lab: Lab, name: string): (r: Lab)
    ensures name in r.links.values && r.machines == lab.machines
  {
    if name in lab.links.values then lab else lab.(links := lab.links.Set(name, Link(name, [])))
  }

  function SetMachine(lab: Lab, key: string, m: Machine): Lab {
    lab.(machines := lab.machines.Set(key, m))
  }

  function SetLink(lab: Lab, name: string, l: Link): Lab {
    lab.(links := lab.links.Set(name, l))
  }

  /** What attaching does to the device and the link themselves; an error leaves both as they were. */
  function Attach(m: Machine, l: Link, text: Text, number: Option<int>, mac: string): (Machine, Link, Outcome) {
    var n := if number.Some? then number.value else |m.slots|;
    if HasNumber(m.slots, n) then (m, l, Failed(InterfaceAlreadySet))
    else if m.name in l.attached then (m, l, Failed(MachineAlreadyConnected))
    else if mac != "" && !text.macOk(mac) then (m, l, Failed(BadMac))
    else (m.(slots := InsertSlot(m.slots, Slot(n, Some(l.name), mac))), l.(attached := l.attached + [m.name]), Done)
  }

  function AddInterface(lab: Lab, text: Text, key: string, link: string, number: Option<int>, mac: string): (Lab, Outcome)
    requires key in lab.machines.values && link in lab.links.values
  {
    var (m, l, outcome) := Attach(lab.machines.values[key], lab.links.values[link], text, number, mac);
    (SetLink(SetMachine(lab, key, m), link, l), outcome)
  }

  function Connect(lab: Lab, text: Text, name: string, link: string, number: Option<int>, mac: string): (Lab, Outcome) {
    var (made, outcome) := GetOrNewMachine(lab, text, name);
    if outcome.Failed? then (made, outcome)
    else AddInterface(GetOrNewLink(made, link), text, name, link, number, mac)
  }

  function Without(names: seq<string>, name: string): (r: seq<string>)
    ensures forall x :: x in r <==> x in names && x != name
    ensures name !in names ==> r == names
  {
    if names == [] then [] else (if names[0] == name then [] else [names[0]]) + Without(names[1..], name)
  }

  function Detach(m: Machine, l: Link): (Machine, Link, Outcome) {
    if m.name !in l.attached then (m, l, Failed(MachineNotConnected))
    else (m.(slots := Detached(m.slots, l.name)), l.(attached := Without(l.attached, m.name)), Done)
  }

  function RemoveInterface(lab: Lab, key: string, link: string): (Lab, Outcome)
    requires key in lab.machines.values && link in lab.links.values
  {
    var (m, l, outcome) := Detach(lab.machines.values[key], lab.links.values[link]);
    (SetLink(SetMachine(lab, key, m), link, l), outcome)
  }

  /** Slot after slot, the device is taken off its links; a tombstone has none, and stops that halfway. */
  function LeaveLinks(links: Dict<string, Link>, slots: seq<Slot>, name: string): (Dict<string, Link>, Outcome)
    decreases |slots|
  {
    if slots == [] then (links, Done)
    else match slots[0].link
      case None => (links, Failed(NoneHasNoLink))
      case Some(link) =>
        if link !in links.values || name !in links.values[link].attached then (links, Failed(MissingKey))
        else
          var l := links.values[link];
          LeaveLinks(links.Set(link, l.(attached := Without(l.attached, name))), slots[1..], name)
  }

  function RemoveMachine(lab: Lab, name: string): (Lab, Outcome)
    requires lab.machines.Valid()
  {
    if name !in lab.machines.values then (lab, Failed(MachineNotFound))
    else
      var (links, outcome) := LeaveLinks(lab.links, lab.machines.values[name].slots, name);
      if outcome.Failed? then (lab.(links := links), outcome)
      else (Lab(lab.machines.Delete(name), links), Done)
  }

  // ----- the association -----

  predicate MachineOk(lab: Lab, key: string)
    requires key in lab.machines.values
  {
    var m := lab.machines.values[key];
    && m.name == key && SlotsSorted(m.slots)
    && forall i :: 0 <= i < |m.slots| && m.slots[i].link.Some? ==> m.slots[i].link.value in lab.links.values
  }

  predicate LinkOk(lab: Lab, name: string)
    requires name in lab.links.values
  {
    var l := lab.links.values[name];
    l.name == name && Distinct(l.attached) && forall k :: k in l.attached ==> k in lab.machines.values
  }

  /** A link lists a device exactly when the device has exactly one live interface on it; else it has none. */
  predicate PairOk(lab: Lab, key: string, link: string)
    requires key in lab.machines.values && link in lab.links.values
  {
    LiveOn(lab.machines.values[key].slots, link) == if key in lab.links.values[link].attached then 1 else 0
  }

  ghost predicate Associated(lab: Lab) {
    && lab.machines.Valid() && lab.links.Valid()
    && (forall k :: k in lab.machines.values ==> MachineOk(lab, k))
    && (forall l :: l in lab.links.values ==> LinkOk(lab, l))
    && forall k, l :: k in lab.machines.values && l in lab.links.values ==> PairOk(lab, k, l)
  }

  /** Nothing happens where a device and a link are set to what they are. */
  lemma SetSame(lab: Lab, key: string, link: string)
    requires key in lab.machines.values && link in lab.links.values
    ensures SetLink(SetMachine(lab, key, lab.machines.values[key]), link, lab.links.values[link]) == lab
  {
    assert lab.machines.values[key := lab.machines.values[key]] == lab.machines.values;
    assert lab.links.values[link := lab.links.values[link]] == lab.links.values;
  }

  // ----- slots under the operations -----

  lemma {:induction false} LiveConcat(a: seq<Slot>, b: seq<Slot>, link: string)
    ensures LiveOn(a + b, link) == LiveOn(a, link) + LiveOn(b, link)
  {
    if a == [] {
      assert a + b == b;
    } else {
      LiveConcat(a[1..], b, link);
      assert (a + b)[0] == a[0] && (a + b)[1..] == a[1..] + b;
    }
  }

  lemma LiveInserted(slots: seq<Slot>, s: Slot, link: string)
    ensures LiveOn(InsertSlot(slots, s), link) == LiveOn(slots, link) + if s.link == Some(link) then 1 else 0
  {
    var i := Place(slots, s.number);
    LiveConcat(slots[..i] + [s], slots[i..], link);
    LiveConcat(slots[..i], [s], link);
    LiveConcat(slots[..i], slots[i..], link);
    assert slots[..i] + slots[i..] == slots;
    assert [s][1..] == [];
  }

  /** Inserting a new number keeps the slots in strict order. */
  lemma InsertSorted(slots: seq<Slot>, s: Slot)
    requires SlotsSorted(slots) && !HasNumber(slots, s.number)
    ensures SlotsSorted(InsertSlot(slots, s))
  {
    var i := Place(slots, s.number);
    assert i < |slots| ==> slots[i].number != s.number;
  }

  lemma {:induction false} LiveDetached(slots: seq<Slot>, gone: string, link: string)
    ensures LiveOn(Detached(slots, gone), link) == if gone == link then 0 else LiveOn(slots, link)
  {
    if slots != [] {
      LiveDetached(slots[1..], gone, link);
      assert Detached(slots, gone)[1..] == Detached(slots[1..], gone);
    }
  }

  lemma {:induction false} LiveWhere(slots: seq<Slot>, link: string)
    ensures LiveOn(slots, link) > 0 <==> exists i :: 0 <= i < |slots| && slots[i].link == Some(link)
  {
    if slots != [] {
      LiveWhere(slots[1..], link);
      if LiveOn(slots[1..], link) > 0 {
        var i :| 0 <= i < |slots[1..]| && slots[1..][i].link == Some(link);
        assert slots[i + 1].link == Some(link);
      }
      if i :| 0 <= i < |slots| && slots[i].link == Some(link) {
        assert i > 0 ==> slots[1..][i - 1].link == Some(link);
      }
    }
  }

  lemma {:induction false} WithoutDistinct(names: seq<string>, name: string)
    requires Distinct(names)
    ensures Distinct(Without(names, name))
  {
    if names != [] {
      WithoutDistinct(names[1..], name);
      assert names[0] !in names[1..];
    }
  }

  // ----- every operation keeps the association -----

  lemma NewMachineKeeps(lab: Lab, text: Text, name: string)
    requires Associated(lab) && NameFits(lab, text, name)
    ensures Associated(GetOrNewMachine(lab, text, name).0)
  {
    var r := GetOrNewMachine(lab, text, name).0;
    if r != lab {
      forall k | k in r.machines.values
        ensures MachineOk(r, k)
      {
        assert k != name ==> MachineOk(lab, k);
      }
      forall l | l in r.links.values
        ensures LinkOk(r, l)
      {
        assert LinkOk(lab, l);
      }
      forall k, l | k in r.machines.values && l in r.links.values
        ensures PairOk(r, k, l)
      {
        if k == name { assert LinkOk(lab, l); } else { assert PairOk(lab, k, l); }
      }
    }
  }

  lemma NewLinkKeeps(lab: Lab, name: string)
    requires Associated(lab)
    ensures Associated(GetOrNewLink(lab, name))
  {
    var r := GetOrNewLink(lab, name);
    if r != lab {
      forall k | k in r.machines.values
        ensures MachineOk(r, k)
      {
        assert MachineOk(lab, k);
      }
      forall l | l in r.links.values
        ensures LinkOk(r, l)
      {
        assert l != name ==> LinkOk(lab, l);
      }
      forall k, l | k in r.machines.values && l in r.links.values
        ensures PairOk(r, k, l)
      {
        if l == name {
          assert MachineOk(lab, k);
          LiveWhere(r.machines.values[k].slots, name);
        } else {
          assert PairOk(lab, k, l);
        }
      }
    }
  }

  /** One device and one link have changed, in a way that keeps them right with each other and with the rest. */
  lemma PairChanged(lab: Lab, key: string, link: string, m: Machine, l: Link)
    requires Associated(lab) && key in lab.machines.values && link in lab.links.values
    requires m.name == key && SlotsSorted(m.slots) && l.name == link && Distinct(l.attached)
    requires forall i :: 0 <= i < |m.slots| && m.slots[i].link.Some? ==> m.slots[i].link.value in lab.links.values
    requires forall k :: k != key ==> (k in l.attached <==> k in lab.links.values[link].attached)
    requires LiveOn(m.slots, link) == if key in l.attached then 1 else 0
    requires forall other :: other != link ==> LiveOn(m.slots, other) == LiveOn(lab.machines.values[key].slots, other)
    ensures Associated(SetLink(SetMachine(lab, key, m), link, l))
  {
    var r := SetLink(SetMachine(lab, key, m), link, l);
    forall k | k in r.machines.values
      ensures MachineOk(r, k)
    {
      assert k != key ==> MachineOk(lab, k);
    }
    PairsChanged(lab, key, link, m, l);
    hide PairOk, LiveOn, SlotsSorted;
    forall x | x in r.links.values
      ensures LinkOk(r, x)
    {
      assert LinkOk(lab, x);
    }
  }

  lemma PairsChanged(lab: Lab, key: string, link: string, m: Machine, l: Link)
    requires key in lab.machines.values && link in lab.links.values
    requires forall k, x :: k in lab.machines.values && x in lab.links.values ==> PairOk(lab, k, x)
    requires forall k :: k != key ==> (k in l.attached <==> k in lab.links.values[link].attached)
    requires LiveOn(m.slots, link) == if key in l.attached then 1 else 0
    requires forall other :: other != link ==> LiveOn(m.slots, other) == LiveOn(lab.machines.values[key].slots, other)
    ensures var r := SetLink(SetMachine(lab, key, m), link, l);
            forall k, x :: k in r.machines.values && x in r.links.values ==> PairOk(r, k, x)
  {
    hide LiveOn;
    var r := SetLink(SetMachine(lab, key, m), link, l);
    forall k, x | k in r.machines.values && x in r.links.values
      ensures PairOk(r, k, x)
    {
      assert PairOk(lab, k, x);
    }
  }

  lemma AddKeeps(lab: Lab, text: Text, key: string, link: string, number: Option<int>, mac: string)
    requires Associated(lab) && key in lab.machines.values && link in lab.links.values
    ensures Associated(AddInterface(lab, text, key, link, number, mac).0)
  {
    var m, l := lab.machines.values[key], lab.links.values[link];
    assert MachineOk(lab, key) && LinkOk(lab, link) && PairOk(lab, key, link);
    hide MachineOk, LinkOk, PairOk, Associated, LiveOn, InsertSlot, SlotsSorted;
    if AddInterface(lab, text, key, link, number, mac).1 == Done {
      var s := Slot(if number.Some? then number.value else |m.slots|, Some(link), mac);
      InsertSorted(m.slots, s);
      SlotLinks(m.slots, s, lab.links.values.Keys);
      forall x
        ensures LiveOn(InsertSlot(m.slots, s), x) == LiveOn(m.slots, x) + if x == link then 1 else 0
      {
        LiveInserted(m.slots, s, x);
      }
      PairChanged(lab, key, link, m.(slots := InsertSlot(m.slots, s)), l.(attached := l.attached + [m.name]));
    } else {
      SetSame(lab, key, link);
    }
  }

  lemma SlotLinks(slots: seq<Slot>, s: Slot, links: set<string>)
    requires s.link.Some? && s.link.value in links
    requires forall i :: 0 <= i < |slots| && slots[i].link.Some? ==> slots[i].link.value in links
    ensures var all := InsertSlot(slots, s);
            forall i :: 0 <= i < |all| && all[i].link.Some? ==> all[i].link.value in links
  {
  }

  lemma RemoveInterfaceKeeps(lab: Lab, key: string, link: string)
    requires Associated(lab) && key in lab.machines.values && link in lab.links.values
    ensures Associated(RemoveInterface(lab, key, link).0)
  {
    var m, l := lab.machines.values[key], lab.links.values[link];
    assert MachineOk(lab, key) && LinkOk(lab, link);
    if RemoveInterface(lab, key, link).1 == Done {
      forall x
        ensures LiveOn(Detached(m.slots, link), x) == if x == link then 0 else LiveOn(m.slots, x)
      {
        LiveDetached(m.slots, link, x);
      }
      WithoutDistinct(l.attached, m.name);
      PairChanged(lab, key, link, m.(slots := Detached(m.slots, link)), l.(attached := Without(l.attached, m.name)));
    } else {
      SetSame(lab, key, link);
    }
  }

  /** The device is there under this name, or the name is stripped already, or what stripping leaves of it is refused. */
  predicate NameFits(lab: Lab, text: Text, name: string) {
    name in lab.machines.values || text.strip(name) == name || !IsDeviceName(text.strip(name))
  }

  lemma ConnectKeeps(lab: Lab, text: Text, name: string, link: string, number: Option<int>, mac: string)
    requires Associated(lab) && NameFits(lab, text, name)
    ensures Associated(Connect(lab, text, name, link, number, mac).0)
  {
    NewMachineKeeps(lab, text, name);
    var (made, outcome) := GetOrNewMachine(lab, text, name);
    if outcome == Done {
      NewLinkKeeps(made, link);
      AddKeeps(GetOrNewLink(made, link), text, name, link, number, mac);
    }
  }

  /** A device entered under a name that is not its own stays so, whatever becomes of its interface. */
  lemma MisnamedStays(lab: Lab, text: Text, name: string, link: string, number: Option<int>, mac: string)
    requires !NameFits(lab, text, name)
    ensures !Associated(Connect(lab, text, name, link, number, mac).0)
  {
    var r := Connect(lab, text, name, link, number, mac).0;
    assert name in r.machines.values && r.machines.values[name].name == text.strip(name) != name;
    assert !MachineOk(r, name);
  }

  /**
  Connecting keeps the association, whether or not it succeeds, exactly when it makes no device under a name that stripping
  changes.
  */
  lemma ConnectKeepsExactly(lab: Lab, text: Text, name: string, link: string, number: Option<int>, mac: string)
    requires Associated(lab)
    ensures Associated(Connect(lab, text, name, link, number, mac).0) <==> NameFits(lab, text, name)
  {
    hide Associated, Connect;
    if NameFits(lab, text, name) {
      ConnectKeeps(lab, text, name, link, number, mac);
    } else {
      MisnamedStays(lab, text, name, link, number, mac);
    }
  }

  // ----- removing a device -----

  predicate HasTombstone(slots: seq<Slot>) {
    exists i :: 0 <= i < |slots| && slots[i].link.None?
  }

  /** The slots before the first tombstone. */
  function LiveFront(slots: seq<Slot>): seq<Slot> {
    if slots == [] || slots[0].link.None? then [] else [slots[0]] + LiveFront(slots[1..])
  }

  /** The slots are those of a device that each link lists just when they have one live interface on it. */
  predicate Listed(links: Dict<string, Link>, slots: seq<Slot>, name: string) {
    && (forall i :: 0 <= i < |slots| && slots[i].link.Some? ==> slots[i].link.value in links.values)
    && forall l :: l in links.values ==> LiveOn(slots, l) == if name in links.values[l].attached then 1 else 0
  }

  function Left(l: Link, slots: seq<Slot>, link: string, name: string): Link {
    if LiveOn(LiveFront(slots), link) > 0 then l.(attached := Without(l.attached, name)) else l
  }

  /** The links before the first tombstone lose the device, the others keep it; that is an error where there is one. */
  lemma {:induction false} LeaveLinksLeaves(links: Dict<string, Link>, slots: seq<Slot>, name: string)
    requires links.Valid() && Listed(links, slots, name)
    ensures var (left, outcome) := LeaveLinks(links, slots, name);
            && left.Valid() && left.keys == links.keys
            && outcome == (if HasTombstone(slots) then Failed(NoneHasNoLink) else Done)
            && forall l :: l in links.values ==> l in left.values && left.values[l] == Left(links.values[l], slots, l, name)
    decreases |slots|
  {
    hide HasTombstone, Left, Without;
    if slots == [] {
      NothingLeft(links, slots, name);
    } else {
      TombstoneOn(slots);
      if slots[0].link.Some? {
        var link := slots[0].link.value;
        ListedOn(links, slots, name);
        var l := links.values[link];
        var next := links.Set(link, l.(attached := Without(l.attached, name)));
        LeaveLinksLeaves(next, slots[1..], name);
        forall x | x in links.values
          ensures LeaveLinks(next, slots[1..], name).0.values[x] == Left(links.values[x], slots, x, name)
        {
          LeftOn(links, slots, name, x);
        }
      } else {
        NothingLeft(links, slots, name);
      }
    }
  }

  lemma NothingLeft(links: Dict<string, Link>, slots: seq<Slot>, name: string)
    requires slots == [] || slots[0].link.None?
    ensures forall l :: l in links.values ==> links.values[l] == Left(links.values[l], slots, l, name)
    ensures slots == [] ==> !HasTombstone(slots)
  {
  }

  /** Leaving the first link leaves the rest of the slots listed. */
  lemma ListedOn(links: Dict<string, Link>, slots: seq<Slot>, name: string)
    requires Listed(links, slots, name) && slots != [] && slots[0].link.Some?
    ensures var link := slots[0].link.value;
            && link in links.values && name in links.values[link].attached
            && var l := links.values[link];
               Listed(links.Set(link, l.(attached := Without(l.attached, name))), slots[1..], name)
  {
    var link := slots[0].link.value;
    assert LiveOn(slots, link) == 1 + LiveOn(slots[1..], link);
    assert forall i :: 0 <= i < |slots[1..]| ==> slots[1..][i] == slots[i + 1];
  }

  lemma LeftOn(links: Dict<string, Link>, slots: seq<Slot>, name: string, x: string)
    requires Listed(links, slots, name) && slots != [] && slots[0].link.Some? && x in links.values
    requires slots[0].link.value in links.values
    ensures var link := slots[0].link.value;
            var l := if x == link then links.values[x].(attached := Without(links.values[x].attached, name)) else links.values[x];
            Left(l, slots[1..], x, name) == Left(links.values[x], slots, x, name)
  {
    var link := slots[0].link.value;
    assert LiveOn(slots, link) == 1 + LiveOn(slots[1..], link);
    FrontOn(slots);
    FrontFew(slots[1..], x);
  }

  lemma FrontOn(slots: seq<Slot>)
    requires slots != [] && slots[0].link.Some?
    ensures forall x :: LiveOn(LiveFront(slots), x) == (if slots[0].link == Some(x) then 1 else 0) + LiveOn(LiveFront(slots[1..]), x)
  {
    assert LiveFront(slots)[1..] == LiveFront(slots[1..]);
  }

  lemma {:induction false} FrontFew(slots: seq<Slot>, link: string)
    ensures LiveOn(LiveFront(slots), link) <= LiveOn(slots, link)
  {
    if slots != [] && slots[0].link.Some? {
      FrontFew(slots[1..], link);
      FrontOn(slots);
    }
  }

  lemma TombstoneOn(slots: seq<Slot>)
    requires slots != []
    ensures HasTombstone(slots) <==> slots[0].link.None? || HasTombstone(slots[1..])
  {
    if HasTombstone(slots[1..]) {
      var i :| 0 <= i < |slots[1..]| && slots[1..][i].link.None?;
      assert slots[i + 1].link.None?;
    }
    if i :| 0 <= i < |slots| && slots[i].link.None? {
      assert i > 0 ==> slots[1..][i - 1].link.None?;
    }
  }

  lemma {:induction false} FrontAll(slots: seq<Slot>)
    requires !HasTombstone(slots)
    ensures LiveFront(slots) == slots
  {
    if slots != [] {
      TombstoneOn(slots);
      FrontAll(slots[1..]);
    }
  }

  lemma AssociatedListed(lab: Lab, name: string)
    requires Associated(lab) && name in lab.machines.values
    ensures Listed(lab.links, lab.machines.values[name].slots, name)
  {
    assert MachineOk(lab, name);
    forall l | l in lab.links.values
      ensures PairOk(lab, name, l)
    {
    }
  }

  lemma RemoveKeeps(lab: Lab, name: string)
    requires Associated(lab) && name in lab.machines.values && !HasTombstone(lab.machines.values[name].slots)
    ensures RemoveMachine(lab, name).1 == Done && Associated(RemoveMachine(lab, name).0)
  {
    var slots := lab.machines.values[name].slots;
    AssociatedListed(lab, name);
    LeaveLinksLeaves(lab.links, slots, name);
    FrontAll(slots);
    var r := RemoveMachine(lab, name).0;
    forall l | l in lab.links.values
      ensures r.links.values[l].name == l && Distinct(r.links.values[l].attached)
      ensures forall k :: k in r.links.values[l].attached <==> k in lab.links.values[l].attached && k != name
    {
      assert LinkOk(lab, l) && PairOk(lab, name, l);
      WithoutDistinct(lab.links.values[l].attached, name);
    }
    forall k | k in r.machines.values
      ensures MachineOk(r, k)
    {
      assert MachineOk(lab, k);
    }
    forall l | l in r.links.values
      ensures LinkOk(r, l)
    {
      assert LinkOk(lab, l);
    }
    forall k, l | k in r.machines.values && l in r.links.values
      ensures PairOk(r, k, l)
    {
      assert PairOk(lab, k, l);
    }
  }

  /**
  Removing a device keeps the association exactly when it meets no tombstone, or meets one before it has done anything: a
  tombstone after a live interface leaves the device in the lab, and off the links of the interfaces before it.
  */
  lemma RemoveKeepsExactly(lab: Lab, name: string)
    requires Associated(lab) && name in lab.machines.values
    ensures var slots := lab.machines.values[name].slots;
            Associated(RemoveMachine(lab, name).0) <==> !HasTombstone(slots) || slots[0].link.None?
  {
    var slots := lab.machines.values[name].slots;
    if !HasTombstone(slots) {
      RemoveKeeps(lab, name);
    } else if slots[0].link.Some? {
      var r := RemoveMachine(lab, name).0;
      var link := slots[0].link.value;
      AssociatedListed(lab, name);
      LeaveLinksLeaves(lab.links, slots, name);
      FrontOn(slots);
      assert !PairOk(r, name, link);
    }
  }

  // ----- runs -----

  datatype Op =
    | Connecting(name: string, link: string, number: Option<int>, mac: string)
    | Detaching(name: string, link: string)
    | Removing(name: string)

  function Apply(lab: Lab, text: Text, op: Op): Lab
    requires lab.machines.Valid()
  {
    match op
    case Connecting(name, link, number, mac) => Connect(lab, text, name, link, number, mac).0
    case Detaching(name, link) =>
      if name in lab.machines.values && link in lab.links.values then RemoveInterface(lab, name, link).0 else lab
    case Removing(name) => RemoveMachine(lab, name).0
  }

  /** A device that is made is named by its stripped name, and removing one meets no tombstone behind a live interface. */
  predicate Fair(lab: Lab, text: Text, op: Op) {
    match op
    case Connecting(name, _, _, _) => NameFits(lab, text, name)
    case Detaching(_, _) => true
    case Removing(name) =>
      name in lab.machines.values ==>
        var slots := lab.machines.values[name].slots; !HasTombstone(slots) || slots[0].link.None?
  }

  /** An operation keeps the association exactly when it is fair. */
  lemma ApplyKeeps(lab: Lab, text: Text, op: Op)
    requires Associated(lab)
    ensures lab.machines.Valid() && (Associated(Apply(lab, text, op)) <==> Fair(lab, text, op))
  {
    AssociatedValid(lab);
    hide Associated, Connect, RemoveInterface, RemoveMachine, HasTombstone, NameFits;
    match op
    case Connecting(name, link, number, mac) => ConnectKeepsExactly(lab, text, name, link, number, mac);
    case Detaching(name, link) =>
      if name in lab.machines.values && link in lab.links.values { RemoveInterfaceKeeps(lab, name, link); }
    case Removing(name) =>
      if name in lab.machines.values { RemoveKeepsExactly(lab, name); } else { NothingRemoved(lab, name); }
  }

  lemma NothingRemoved(lab: Lab, name: string)
    requires lab.machines.Valid() && name !in lab.machines.values
    ensures RemoveMachine(lab, name).0 == lab
  {
  }

  lemma AssociatedValid(lab: Lab)
    requires Associated(lab)
    ensures lab.machines.Valid()
  {
  }

  /** The lab after a run of operations, as long as they are fair; every one of them keeps the association. */
  function Run(lab: Lab, text: Text, ops: seq<Op>): (r: Option<Lab>)
    requires Associated(lab)
    ensures r.Some? ==> Associated(r.value)
    decreases |ops|
  {
    if ops == [] then Some(lab)
    else if !Fair(lab, text, ops[0]) then None
    else
      AssociatedValid(lab);
      ApplyKeeps(lab, text, ops[0]);
      Run(Apply(lab, text, ops[0]), text, ops[1..])
  }

  const EMPTY := Lab(Dict([], map[]), Dict([], map[]))

  lemma EmptyAssociated()
    ensures Associated(EMPTY)
  {
  }

  /** Every lab that fair operations build up from nothing has its devices and links associated. */
  lemma BuiltLabs(text: Text, ops: seq<Op>)
    ensures Associated(EMPTY) && (Run(EMPTY, text, ops).Some? ==> Associated(Run(EMPTY, text, ops).value))
  {
    EmptyAssociated();
  }

  /** Every slot is still there under its number; a tombstone is one still, and a live interface is what it was or a tombstone. */
  predicate SlotsLast(a: seq<Slot>, b: seq<Slot>) {
    forall i :: 0 <= i < |a| ==> SlotIn(a[i], b)
  }

  predicate SlotIn(s: Slot, b: seq<Slot>) {
    exists j :: 0 <= j < |b| && SlotLasts(s, b[j])
  }

  predicate SlotLasts(s: Slot, t: Slot) {
    t.number == s.number && (t == s || t.link.None?)
  }

  lemma SlotsLastTrans(a: seq<Slot>, b: seq<Slot>, c: seq<Slot>)
    requires SlotsLast(a, b) && SlotsLast(b, c)
    ensures SlotsLast(a, c)
  {
    forall i | 0 <= i < |a|
      ensures SlotIn(a[i], c)
    {
      assert SlotIn(a[i], b);
      var j :| 0 <= j < |b| && SlotLasts(a[i], b[j]);
      assert SlotIn(b[j], c);
      var k :| 0 <= k < |c| && SlotLasts(b[j], c[k]);
      assert SlotLasts(a[i], c[k]);
    }
  }

  lemma SlotsSame(a: seq<Slot>)
    ensures SlotsLast(a, a)
  {
    forall i | 0 <= i < |a|
      ensures SlotIn(a[i], a)
    {
      assert SlotLasts(a[i], a[i]);
    }
  }

  lemma SlotsInserted(a: seq<Slot>, s: Slot)
    ensures SlotsLast(a, InsertSlot(a, s))
  {
    var p := Place(a, s.number);
    forall i | 0 <= i < |a|
      ensures SlotIn(a[i], InsertSlot(a, s))
    {
      var j := if i < p then i else i + 1;
      assert InsertSlot(a, s)[j] == a[i];
      assert SlotLasts(a[i], InsertSlot(a, s)[j]);
    }
  }

  lemma SlotsDetached(a: seq<Slot>, link: string)
    ensures SlotsLast(a, Detached(a, link))
  {
    forall i | 0 <= i < |a|
      ensures SlotIn(a[i], Detached(a, link))
    {
      assert SlotLasts(a[i], Detached(a, link)[i]);
    }
  }

  /** The lab after any operations at all, fair or not, with any outcomes. */
  function ApplyAll(lab: Lab, text: Text, ops: seq<Op>): (r: Lab)
    requires lab.machines.Valid()
    ensures r.machines.Valid()
    decreases |ops|
  {
    if ops == [] then lab
    else
      ApplyValid(lab, text, ops[0]);
      ApplyAll(Apply(lab, text, ops[0]), text, ops[1..])
  }

  lemma ApplyValid(lab: Lab, text: Text, op: Op)
    requires lab.machines.Valid()
    ensures Apply(lab, text, op).machines.Valid()
  {
    hide InsertSlot, LeaveLinks, HasNumber, Detached;
  }

  /** While a device is in the lab, its numbers stay taken. */
  lemma ApplyLasts(lab: Lab, text: Text, op: Op, key: string)
    requires lab.machines.Valid() && key in lab.machines.values && op != Removing(key)
    ensures key in Apply(lab, text, op).machines.values
    ensures SlotsLast(lab.machines.values[key].slots, Apply(lab, text, op).machines.values[key].slots)
  {
    hide SlotsLast, InsertSlot, LeaveLinks, HasNumber, Detached;
    var slots := lab.machines.values[key].slots;
    SlotsSame(slots);
    match op
    case Connecting(name, link, number, mac) => ConnectLasts(lab, text, name, link, number, mac, key);
    case Detaching(_, link) => if link in lab.links.values { SlotsDetached(slots, lab.links.values[link].name); }
    case Removing(_) =>
  }

  lemma ConnectLasts(lab: Lab, text: Text, name: string, link: string, number: Option<int>, mac: string, key: string)
    requires key in lab.machines.values
    ensures var r := Connect(lab, text, name, link, number, mac).0;
            key in r.machines.values && SlotsLast(lab.machines.values[key].slots, r.machines.values[key].slots)
  {
    hide SlotsLast, InsertSlot, HasNumber;
    var slots := lab.machines.values[key].slots;
    SlotsSame(slots);
    var linked := GetOrNewLink(GetOrNewMachine(lab, text, name).0, link);
    SlotsInserted(slots, Slot(if number.Some? then number.value else |slots|, Some(linked.links.values[link].name), mac));
  }

  /**
  A number that was ever taken is never free again: what holds it is what did, or the tombstone of it. That needs no
  fairness and no association, only that the device stays.
  */
  lemma {:induction false} NumbersNeverReused(lab: Lab, text: Text, ops: seq<Op>, key: string)
    requires lab.machines.Valid() && key in lab.machines.values && Removing(key) !in ops
    ensures var r := ApplyAll(lab, text, ops);
            key in r.machines.values && SlotsLast(lab.machines.values[key].slots, r.machines.values[key].slots)
    decreases |ops|
  {
    var slots := lab.machines.values[key].slots;
    if ops == [] {
      SlotsSame(slots);
    } else {
      hide Apply, SlotsLast;
      ApplyValid(lab, text, ops[0]);
      var next := Apply(lab, text, ops[0]);
      ApplyLasts(lab, text, ops[0], key);
      NumbersNeverReused(next, text, ops[1..], key);
      SlotsLastTrans(slots, next.machines.values[key].slots, ApplyAll(next, text, ops[1..]).machines.values[key].slots);
    }
  }

  /** Without stripping first, two devices can share a name, and a link then lists one for the other. */
  lemma UnstrippedName(text: Text)
    requires text.strip(" a") == "a" && text.strip("a") == "a"
    ensures var one := Connect(EMPTY, text, " a", "X", None, "").0;
            var two := Connect(one, text, "a", "X", None, "");
            && two.1 == Failed(MachineAlreadyConnected)
            && two.0.links.values["X"].attached == ["a"] && two.0.machines.values["a"].slots == []
            && !Associated(two.0)
  {
    var one := Connect(EMPTY, text, " a", "X", None, "").0;
    assert one.machines.values[" a"].name == "a" && one.links.values["X"].attached == ["a"];
    var two := Connect(one, text, "a", "X", None, "").0;
    assert !PairOk(two, "a", "X");
  }
}
