/**
model/lab.go and model/machine.go: exactly when a device can be attached, which number its interface gets, and what becomes of
the numbers of a lab that is built up without asking for any.
*/
module LabLaws {
  import opened Wrappers
  import opened Ordered
  import opened LabModel
  import Numbering

  /** The slots of a device, and none of one that is not there yet. */
  function SlotsOf(lab: Lab, key: string): seq<Slot> {
    if key in lab.machines.values then lab.machines.values[key].slots else []
  }

  /** The name that a device goes by. */
  function NameOf(lab: Lab, text: Text, key: string): string {
    if key in lab.machines.values then lab.machines.values[key].name else text.strip(key)
  }

  function LinkNamed(lab: Lab, link: string): Link {
    if link in lab.links.values then lab.links.values[link] else Link(link, [])
  }

  /** The number of a new interface: the one that is asked for, or the number of slots that the device has. */
  function NumberFor(lab: Lab, key: string, number: Option<int>): int {
    match number case Some(n) => n case None => |SlotsOf(lab, key)|
  }

  /** What stands in the way of an interface, in the order in which it is looked at. */
  function Obstacle(lab: Lab, text: Text, key: string, link: string, number: Option<int>, mac: string): Option<Error> {
    if key !in lab.machines.values && !IsDeviceName(text.strip(key)) then Some(BadDeviceName)
    else if exists i :: 0 <= i < |SlotsOf(lab, key)| && SlotsOf(lab, key)[i].number == NumberFor(lab, key, number)
    then Some(InterfaceAlreadySet)
    else if NameOf(lab, text, key) in LinkNamed(lab, link).attached then Some(MachineAlreadyConnected)
    else if mac != "" && !text.macOk(mac) then Some(BadMac)
    else None
  }

  /** after is before with one slot more, in front of the slots with a greater number. */
  predicate OneMore(before: seq<Slot>, after: seq<Slot>, s: Slot) {
    exists i :: 0 <= i <= |before| && Added(before, after, s, i)
  }

  predicate Added(before: seq<Slot>, after: seq<Slot>, s: Slot, i: nat)
    requires i <= |before|
  {
    && after == before[..i] + [s] + before[i..]
    && (forall k :: 0 <= k < i ==> before[k].number < s.number)
    && (i < |before| ==> before[i].number > s.number)
  }

  lemma SlotAdded(slots: seq<Slot>, s: Slot)
    requires forall i :: 0 <= i < |slots| ==> slots[i].number != s.number
    ensures OneMore(slots, InsertSlot(slots, s), s)
  {
    assert Added(slots, InsertSlot(slots, s), s, Place(slots, s.number));
  }

  /** But for this device and this link, the lab is as it was. */
  predicate OnlyHere(lab: Lab, r: Lab, key: string, link: string) {
    && r.machines.values - {key} == lab.machines.values - {key} && lab.machines.keys <= r.machines.keys
    && r.links.values - {link} == lab.links.values - {link} && lab.links.keys <= r.links.keys
  }

  /**
  Connecting fails exactly where something stands in the way, and then adds nothing to any device or link. Otherwise the device
  has just one slot more, of that number, on that link, with that address, and comes last on the link.
  */
  lemma ConnectAdds(lab: Lab, text: Text, key: string, link: string, number: Option<int>, mac: string)
    ensures var (r, outcome) := Connect(lab, text, key, link, number, mac);
            && OnlyHere(lab, r, key, link)
            && match Obstacle(lab, text, key, link, number, mac)
               case Some(error) =>
                 outcome == Failed(error) && SlotsOf(r, key) == SlotsOf(lab, key) && LinkNamed(r, link) == LinkNamed(lab, link)
               case None =>
                 && outcome == Done && key in r.machines.values && link in r.links.values
                 && r.machines.values[key].name == NameOf(lab, text, key)
                 && OneMore(SlotsOf(lab, key), SlotsOf(r, key), Slot(NumberFor(lab, key, number), Some(LinkNamed(lab, link).name), mac))
                 && LinkNamed(r, link) == Link(LinkNamed(lab, link).name, LinkNamed(lab, link).attached + [NameOf(lab, text, key)])
  {
    hide InsertSlot, OneMore, IsDeviceName;
    MachineMade(lab, text, key);
    var (made, outcome) := GetOrNewMachine(lab, text, key);
    if outcome == Done {
      LinkMade(made, link);
      InterfaceMade(GetOrNewLink(made, link), text, key, link, number, mac);
    }
  }

  lemma MachineMade(lab: Lab, text: Text, key: string)
    ensures var (r, outcome) := GetOrNewMachine(lab, text, key);
            && r.links == lab.links && r.machines.values - {key} == lab.machines.values - {key} && lab.machines.keys <= r.machines.keys
            && SlotsOf(r, key) == SlotsOf(lab, key)
            && if key !in lab.machines.values && !IsDeviceName(text.strip(key)) then r == lab && outcome == Failed(BadDeviceName)
               else outcome == Done && key in r.machines.values && r.machines.values[key].name == NameOf(lab, text, key)
  {
    hide IsDeviceName;
  }

  lemma LinkMade(lab: Lab, link: string)
    ensures var r := GetOrNewLink(lab, link);
            && r.machines == lab.machines && r.links.values - {link} == lab.links.values - {link} && lab.links.keys <= r.links.keys
            && link in r.links.values && r.links.values[link] == LinkNamed(lab, link)
  {
  }

  lemma InterfaceMade(lab: Lab, text: Text, key: string, link: string, number: Option<int>, mac: string)
    requires key in lab.machines.values && link in lab.links.values
    ensures var (r, outcome) := AddInterface(lab, text, key, link, number, mac);
            var m, l := lab.machines.values[key], lab.links.values[link];
            && key in r.machines.values && link in r.links.values
            && r.machines.values - {key} == lab.machines.values - {key} && r.links.values - {link} == lab.links.values - {link}
            && r.machines.keys == lab.machines.keys && r.links.keys == lab.links.keys && r.machines.values[key].name == m.name
            && match Obstacle(lab, text, key, link, number, mac)
               case Some(error) => outcome == Failed(error) && r.machines.values[key] == m && r.links.values[link] == l
               case None =>
                 && outcome == Done && r.links.values[link] == Link(l.name, l.attached + [m.name])
                 && OneMore(m.slots, r.machines.values[key].slots, Slot(NumberFor(lab, key, number), Some(l.name), mac))
  {
    hide InsertSlot, OneMore, IsDeviceName;
    var m, l := lab.machines.values[key], lab.links.values[link];
    var s := Slot(NumberFor(lab, key, number), Some(l.name), mac);
    assert SlotsOf(lab, key) == m.slots && NameOf(lab, text, key) == m.name && LinkNamed(lab, link) == l;
    var taken := exists i :: 0 <= i < |m.slots| && m.slots[i].number == s.number;
    assert taken <==> HasNumber(m.slots, s.number);
    assert taken ==> Obstacle(lab, text, key, link, number, mac) == Some(InterfaceAlreadySet);
    if Obstacle(lab, text, key, link, number, mac) == None {
      SlotAdded(m.slots, s);
    }
  }

  // ----- numbers -----

  /** The numbers of these slots are 0, 1 and so on. */
  predicate Numbered(slots: seq<Slot>) {
    forall i :: 0 <= i < |slots| ==> slots[i].number == i
  }

  predicate NumberedLab(lab: Lab) {
    forall k :: k in lab.machines.values ==> Numbered(lab.machines.values[k].slots)
  }

  /** No interface is asked for by number. */
  predicate Unnumbered(op: Op) {
    op.Connecting? ==> op.number == None
  }

  /** One slot more keeps the numbers without a gap exactly when it has the next. */
  lemma NextNumber(slots: seq<Slot>, s: Slot)
    requires Numbered(slots) && !HasNumber(slots, s.number)
    ensures Numbered(InsertSlot(slots, s)) <==> s.number == |slots|
    ensures s.number == |slots| ==> InsertSlot(slots, s) == slots + [s]
  {
    var i := Place(slots, s.number);
    if i < |slots| {
      assert slots[i].number != s.number;
      assert InsertSlot(slots, s)[i] == s;
    } else {
      assert InsertSlot(slots, s)[i] == s;
    }
  }

  /** What an operation leaves of the numbers, if it asks for none. */
  lemma ApplyNumbered(lab: Lab, text: Text, op: Op)
    requires lab.machines.Valid() && NumberedLab(lab) && Unnumbered(op)
    ensures NumberedLab(Apply(lab, text, op))
  {
    var r := Apply(lab, text, op);
    forall k | k in r.machines.values
      ensures Numbered(r.machines.values[k].slots)
    {
      match op
      case Connecting(name, link, number, mac) =>
        ConnectAdds(lab, text, name, link, number, mac);
        if k == name {
          ConnectNumbered(lab, text, name, link, mac);
        } else {
          assert k in (r.machines.values - {name});
        }
      case Detaching(name, link) =>
      case Removing(name) =>
        RemovesOnly(lab, name);
        assert r.machines.values[k] == lab.machines.values[k];
    }
  }

  lemma ConnectNumbered(lab: Lab, text: Text, key: string, link: string, mac: string)
    requires Numbered(SlotsOf(lab, key))
    ensures Numbered(SlotsOf(Connect(lab, text, key, link, None, mac).0, key))
  {
    var before := SlotsOf(lab, key);
    var (r, outcome) := Connect(lab, text, key, link, None, mac);
    ConnectAdds(lab, text, key, link, None, mac);
    hide Connect;
  }

  lemma RemovesOnly(lab: Lab, name: string)
    requires lab.machines.Valid()
    ensures var r := RemoveMachine(lab, name).0;
            forall k :: k in r.machines.values ==> k in lab.machines.values && r.machines.values[k] == lab.machines.values[k]
  {
    hide LeaveLinks;
  }

  /** A connect that asks for no number never finds its number taken, and gives its interface the next. */
  lemma NextNumberGiven(lab: Lab, text: Text, key: string, link: string, mac: string)
    requires Numbered(SlotsOf(lab, key))
    ensures var (r, outcome) := Connect(lab, text, key, link, None, mac);
            && outcome != Failed(InterfaceAlreadySet)
            && (outcome == Done ==>
                  SlotsOf(r, key) == SlotsOf(lab, key) + [Slot(|SlotsOf(lab, key)|, Some(LinkNamed(lab, link).name), mac)])
  {
    ConnectAdds(lab, text, key, link, None, mac);
    hide Connect;
  }

  lemma {:induction false} RunNumbered(lab: Lab, text: Text, ops: seq<Op>)
    requires lab.machines.Valid() && NumberedLab(lab) && forall i :: 0 <= i < |ops| ==> Unnumbered(ops[i])
    ensures NumberedLab(ApplyAll(lab, text, ops))
    decreases |ops|
  {
    hide NumberedLab, Apply, Unnumbered;
    if ops != [] {
      assert Unnumbered(ops[0]);
      ApplyNumbered(lab, text, ops[0]);
      ApplyValid(lab, text, ops[0]);
      RunNumbered(Apply(lab, text, ops[0]), text, ops[1..]);
    }
  }

  function NumbersOf(slots: seq<Slot>): (ns: seq<int>)
    ensures |ns| == |slots| && forall i :: 0 <= i < |slots| ==> ns[i] == slots[i].number
  {
    seq(|slots|, i requires 0 <= i < |slots| => slots[i].number)
  }

  /**
  Whatever is connected, detached and removed, with whatever outcomes: as long as no interface is asked for by number, every
  device has the numbers 0 to n, those of removed interfaces among them, and the check of the numbering finds nothing wrong.
  */
  lemma BuiltNumbered(text: Text, ops: seq<Op>, key: string)
    requires forall i :: 0 <= i < |ops| ==> Unnumbered(ops[i])
    ensures EMPTY.machines.Valid()
    ensures var ns := NumbersOf(SlotsOf(ApplyAll(EMPTY, text, ops), key));
            && ns == seq(|ns|, i => i) && Numbering.StrictlyAscending(ns)
            && forall r :: Numbering.FirstOff(Numbering.Numbers(ns), r) ==> r == None
  {
    hide Apply, Unnumbered;
    RunNumbered(EMPTY, text, ops);
    var ns := NumbersOf(SlotsOf(ApplyAll(EMPTY, text, ops), key));
    assert ns == seq(|ns|, i => i);
  }

  // ----- leaving -----

  /** Taking a device off a link leaves a tombstone where its interface was, and the link without it; all else stays. */
  lemma RemoveInterfaceLeaves(lab: Lab, key: string, link: string)
    requires key in lab.machines.values && link in lab.links.values
    ensures var (r, outcome) := RemoveInterface(lab, key, link);
            var m, l := lab.machines.values[key], lab.links.values[link];
            && OnlyHere(lab, r, key, link)
            && if m.name !in l.attached then r == lab && outcome == Failed(MachineNotConnected)
               else
                 && outcome == Done && |SlotsOf(r, key)| == |m.slots|
                 && (forall i :: 0 <= i < |m.slots| ==>
                       && SlotsOf(r, key)[i].number == m.slots[i].number
                       && (m.slots[i].link == Some(l.name) ==> SlotsOf(r, key)[i].link == None)
                       && (m.slots[i].link != Some(l.name) ==> SlotsOf(r, key)[i] == m.slots[i]))
                 && m.name !in LinkNamed(r, link).attached
                 && forall k :: k != m.name ==> (k in LinkNamed(r, link).attached <==> k in l.attached)
  {
    SetSame(lab, key, link);
  }

  /** Removing a device that has no tombstone takes it off every link, and out of the lab, and changes nothing else. */
  lemma RemoveMachineLeaves(lab: Lab, name: string)
    requires Associated(lab) && name in lab.machines.values
    requires forall i :: 0 <= i < |lab.machines.values[name].slots| ==> lab.machines.values[name].slots[i].link.Some?
    ensures lab.machines.Valid()
    ensures var (r, outcome) := RemoveMachine(lab, name);
            && outcome == Done && r.machines.values == lab.machines.values - {name} && r.links.keys == lab.links.keys
            && forall l :: l in lab.links.values ==>
                 && l in r.links.values && name !in r.links.values[l].attached
                 && (name !in lab.links.values[l].attached ==> r.links.values[l] == lab.links.values[l])
                 && forall k :: k != name ==> (k in r.links.values[l].attached <==> k in lab.links.values[l].attached)
  {
    AssociatedValid(lab);
    var slots := lab.machines.values[name].slots;
    assert !HasTombstone(slots);
    AssociatedListed(lab, name);
    LeaveLinksLeaves(lab.links, slots, name);
    FrontAll(slots);
    forall l | l in lab.links.values
      ensures PairOk(lab, name, l)
    {
    }
    hide Associated, LeaveLinks, LiveOn;
  }
}
