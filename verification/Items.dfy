/**
 Items that move between containers (bot/src/packetProcessor.cpp, 822-1013, with bot/src/storage/itemList.cpp,
 storage.cpp and buybackQueue.cpp): how much of each kind there is.
 */
module Items {
  import opened Options

  /** What 16 bits hold. */
  type Amount = x: nat | x < 0x1_0000

  /** An item; `quantity` is there for an expendable one. */
  datatype Item = Item(refId: nat, quantity: Option<Amount>, maxStack: Amount)

  type Slots = seq<Option<Item>>

  function Weight(i: Item): nat
  {
    match i.quantity case Some(q) => q case None => 1
  }

  /** How much of `ref` a slot holds. */
  function WeightOf(o: Option<Item>, ref: nat): nat
  {
    if o.Some? && o.value.refId == ref then Weight(o.value) else 0
  }

  function Sum(s: Slots, ref: nat): nat
  {
    if |s| == 0 then 0 else Sum(s[..|s| - 1], ref) + WeightOf(s[|s| - 1], ref)
  }

  function SumAll(cs: seq<Slots>, ref: nat): nat
  {
    if |cs| == 0 then 0 else SumAll(cs[..|cs| - 1], ref) + Sum(cs[|cs| - 1], ref)
  }

  lemma {:induction false} SumUpdate(s: Slots, k: nat, o: Option<Item>, ref: nat)
    requires k < |s|
    ensures Sum(s[k := o], ref) == Sum(s, ref) - WeightOf(s[k], ref) + WeightOf(o, ref)
    decreases |s|
  {
    var n := |s| - 1;
    if k < n {
      SumUpdate(s[..n], k, o, ref);
      assert s[k := o][..n] == s[..n][k := o];
    } else {
      assert s[k := o][..n] == s[..n];
    }
  }

  lemma {:induction false} SumConcat(s: Slots, t: Slots, ref: nat)
    ensures Sum(s + t, ref) == Sum(s, ref) + Sum(t, ref)
    decreases |t|
  {
    if |t| > 0 {
      SumConcat(s, t[..|t| - 1], ref);
      assert (s + t)[..|s + t| - 1] == s + t[..|t| - 1];
    } else {
      assert s + t == s;
    }
  }

  lemma SumOne(o: Option<Item>, ref: nat)
    ensures Sum([o], ref) == WeightOf(o, ref)
  {
    assert [o][..0] == [];
  }

  lemma SumRemove(s: Slots, k: nat, ref: nat)
    requires k < |s|
    ensures Sum(s[..k] + s[k + 1..], ref) == Sum(s, ref) - WeightOf(s[k], ref)
  {
    SumConcat(s[..k], s[k + 1..], ref);
    SumConcat(s[..k] + [s[k]], s[k + 1..], ref);
    SumConcat(s[..k], [s[k]], ref);
    SumOne(s[k], ref);
    assert s == s[..k] + [s[k]] + s[k + 1..];
  }

  lemma {:induction false} SumAllUpdate(cs: seq<Slots>, k: nat, s: Slots, ref: nat)
    requires k < |cs|
    ensures SumAll(cs[k := s], ref) == SumAll(cs, ref) - Sum(cs[k], ref) + Sum(s, ref)
    decreases |cs|
  {
    var n := |cs| - 1;
    if k < n {
      SumAllUpdate(cs[..n], k, s, ref);
      assert cs[k := s][..n] == cs[..n][k := s];
    } else {
      assert cs[k := s][..n] == cs[..n];
    }
  }

  // ---------------------------------------------------------------- moving within one container

  predicate Has(s: Slots, k: nat) { k < |s| && s[k].Some? }

  function Min(a: int, b: int): int { if a < b then a else b }

  /** The two slots hold stacks of the same expendable item, and the second is not full. */
  predicate Stacks(s: Slots, src: nat, dest: nat)
    requires Has(s, src) && Has(s, dest)
  {
    var a, b := s[src].value, s[dest].value;
    a.refId == b.refId && a.quantity.Some? && b.quantity.Some? && b.maxStack != b.quantity.value
  }

  /** What moveItem adds to the destination stack, and what it then takes from the source stack. */
  function Added(b: Item, quantity: Amount): (r: int)
    requires b.quantity.Some?
    ensures 0 <= b.quantity.value + r < 0x1_0000
  {
    Min(b.maxStack - b.quantity.value, quantity)
  }

  /** What there is more after two stacks have been put together. */
  function Gained(s: Slots, src: nat, dest: nat, quantity: Amount): int
    requires Has(s, src) && Has(s, dest) && Stacks(s, src, dest)
  {
    var added := Added(s[dest].value, quantity);
    added - Min(s[src].value.quantity.value + (if src == dest then added else 0), quantity)
  }

  /** The amount fits both stacks: it is within the source stack and the space left, or the source stack is as large as
      that space and the amount larger.  A stack that is put onto itself takes what there is space for. */
  predicate Fits(s: Slots, src: nat, dest: nat, quantity: Amount)
    requires Has(s, src) && Has(s, dest) && Stacks(s, src, dest)
  {
    var have, space := s[src].value.quantity.value, s[dest].value.maxStack - s[dest].value.quantity.value;
    if src == dest then quantity <= space || have == 0
    else (quantity <= have && quantity <= space) || (have == space && quantity > space)
  }

  /** Putting stacks together loses or makes up items exactly when the amount does not fit. */
  lemma GainedNothing(s: Slots, src: nat, dest: nat, quantity: Amount)
    requires Has(s, src) && Has(s, dest) && Stacks(s, src, dest)
    ensures Gained(s, src, dest, quantity) == 0 <==> Fits(s, src, dest, quantity)
  {
  }

  /** The slots after two stacks have been put together. */
  function Together(s: Slots, src: nat, dest: nat, quantity: Amount): (r: Slots)
    requires Has(s, src) && Has(s, dest) && Stacks(s, src, dest)
    ensures |r| == |s|
  {
    var b := s[dest].value;
    var more := s[dest := Some(b.(quantity := Some(b.quantity.value + Added(b, quantity))))];
    var left := more[src].value;
    if left.quantity.value > quantity
    then more[src := Some(left.(quantity := Some(left.quantity.value - quantity)))]
    else more[src := None]
  }

  /** moveItem: the slots afterwards, and whether it does not throw. */
  function Rearranged(s: Slots, src: nat, dest: nat, quantity: Amount): (r: (Slots, bool))
    ensures |r.0| == |s|
  {
    if src >= |s| then (s, false)
    else if s[src].None? then (s, true)
    else if dest >= |s| then (s, false)
    else
      var a := s[src].value;
      if s[dest].Some? then
        (if Stacks(s, src, dest) then Together(s, src, dest, quantity) else s[dest := s[src]][src := s[dest]], true)
      else if a.quantity.Some? && a.quantity.value > quantity then
        (s[src := Some(a.(quantity := Some(a.quantity.value - quantity)))][dest :=
                                                                           Some(a.(quantity := Some(quantity)))],
         true)
      else (s[dest := s[src]][src := None], true)
  }

  /** Where things are after an item `a` has been moved to another slot, which held `target`: that slot holds `now`, and
      that of the item `left`.  A free slot gets the amount asked for, or everything that there is; a stack of the same
      kind that is not full gets as much as fits; any other item changes places with it. */
  predicate MovedTo(a: Item, target: Option<Item>, now: Option<Item>, left: Option<Item>, quantity: Amount)
  {
    match target
    case None =>
      if a.quantity.Some? && quantity < a.quantity.value then
        && now == Some(Item(a.refId, Some(quantity), a.maxStack))
        && left == Some(Item(a.refId, Some(a.quantity.value - quantity), a.maxStack))
      else now == Some(a) && left == None
    case Some(b) =>
      if a.refId == b.refId && a.quantity.Some? && b.quantity.Some? && b.quantity.value != b.maxStack then
        var space := b.maxStack - b.quantity.value;
        && now.Some? && now.value == b.(quantity := now.value.quantity) && now.value.quantity.Some?
        && now.value.quantity.value == b.quantity.value + (if space < quantity then space else quantity)
        && left == if quantity < a.quantity.value
                   then Some(Item(a.refId, Some(a.quantity.value - quantity), a.maxStack)) else None
      else now == Some(a) && left == Some(b)
  }

  /** The slots after moveItem, one by one; it throws for a source out of range, and for an item whose destination
      is. */
  lemma RearrangedSlots(s: Slots, src: nat, dest: nat, quantity: Amount)
    ensures var (n, ok) := Rearranged(s, src, dest, quantity);
            && (ok <==> src < |s| && (s[src].Some? ==> dest < |s|))
            && (forall i | 0 <= i < |s| && i != src && i != dest :: n[i] == s[i])
            && (!Has(s, src) || dest >= |s| ==> n == s)
            && (Has(s, src) && dest < |s| && src != dest ==>
                  MovedTo(s[src].value, s[dest], n[dest], n[src], quantity))
            && (Has(s, src) && src == dest && !Stacks(s, src, src) ==> n == s)
  {
  }

  /** How much a move within a container changes the quantity of `ref`. */
  function MoveGain(s: Slots, src: nat, dest: nat, quantity: Amount, ref: nat): int
  {
    if Has(s, src) && Has(s, dest) && Stacks(s, src, dest) && s[src].value.refId == ref
    then Gained(s, src, dest, quantity) else 0
  }

  /** When two stacks of one kind are put together, what is added need not be what is taken away; in every other case
      nothing is gained or lost. */
  lemma RearrangedSum(s: Slots, src: nat, dest: nat, quantity: Amount, ref: nat)
    ensures Sum(Rearranged(s, src, dest, quantity).0, ref) == Sum(s, ref) + MoveGain(s, src, dest, quantity, ref)
  {
    hide Sum;
    if Has(s, src) && dest < |s| {
      var a := s[src].value;
      if s[dest].Some? {
        if Stacks(s, src, dest) {
          TogetherSum(s, src, dest, quantity, ref);
        } else {
          TwoUpdates(s, dest, s[src], src, s[dest], ref);
        }
      } else if a.quantity.Some? && a.quantity.value > quantity {
        var rest, part := a.(quantity := Some(a.quantity.value - quantity)), a.(quantity := Some(quantity));
        TwoUpdates(s, src, Some(rest), dest, Some(part), ref);
      } else {
        TwoUpdates(s, dest, s[src], src, None, ref);
      }
    }
  }

  lemma TwoUpdates(s: Slots, i: nat, x: Option<Item>, j: nat, y: Option<Item>, ref: nat)
    requires i < |s| && j < |s|
    ensures Sum(s[i := x][j := y], ref) ==
            Sum(s, ref) - WeightOf(s[i], ref) + WeightOf(y, ref) + if i == j then 0
              else WeightOf(x, ref) - WeightOf(s[j], ref)
  {
    hide Sum, WeightOf;
    SumUpdate(s, i, x, ref);
    SumUpdate(s[i := x], j, y, ref);
  }

  lemma TogetherSum(s: Slots, src: nat, dest: nat, quantity: Amount, ref: nat)
    requires Has(s, src) && Has(s, dest) && Stacks(s, src, dest)
    ensures Sum(Together(s, src, dest, quantity), ref) == Sum(s, ref) + MoveGain(s, src, dest, quantity, ref)
  {
    hide Sum;
    var b := s[dest].value;
    var full := Some(b.(quantity := Some(b.quantity.value + Added(b, quantity))));
    var left := s[dest := full][src].value;
    TwoUpdates(s, dest, full, src, if left.quantity.value > quantity
               then Some(left.(quantity := Some(left.quantity.value - quantity))) else None, ref);
  }

  /** What a sale makes up: more is sold of a stack than there is, and 16 bits wrap around. */
  function Wrapped(item: Item, quantity: Amount): int
  {
    if item.quantity.Some? && item.quantity.value != quantity then
      (item.quantity.value - quantity) % 0x1_0000 + quantity - item.quantity.value
    else 0
  }

  /** A sale makes nothing up exactly when it is at most the stack; otherwise it makes up 2^16. */
  lemma WrappedNothing(item: Item, quantity: Amount)
    ensures Wrapped(item, quantity) == if item.quantity.Some? && quantity > item.quantity.value then 0x1_0000 else 0
  {
  }

  /** A sale from a slot: the slots afterwards, and what is sold. */
  function TakenToSell(s: Slots, slot: nat, quantity: Amount): (r: (Slots, Item))
    requires Has(s, slot)
    ensures |r.0| == |s|
  {
    var item := s[slot].value;
    if item.quantity.Some? && item.quantity.value != quantity then
      (s[slot := Some(item.(quantity := Some((item.quantity.value - quantity) % 0x1_0000)))],
       item.(quantity := Some(quantity)))
    else (s[slot := None], item)
  }

  // ---------------------------------------------------------------- the code

  class Storage {
    var items: Slots

    constructor (items: Slots)
      ensures this.items == items
    {
      this.items := items;
    }

    /** addItem; false when it throws. */
    method AddItem(slot: nat, item: Item) returns (ok: bool)
      modifies this
      ensures ok == (slot < |old(items)| && old(items)[slot].None?)
      ensures items == if ok then old(items)[slot := Some(item)] else old(items)
    {
      if slot >= |items| || items[slot].Some? {
        return false;
      }
      items := items[slot := Some(item)];
      return true;
    }

    /** withdrawItem; None when it throws. */
    method WithdrawItem(slot: nat) returns (item: Option<Item>)
      modifies this
      ensures item == if Has(old(items), slot) then old(items)[slot] else None
      ensures items == if Has(old(items), slot) then old(items)[slot := None] else old(items)
    {
      if slot >= |items| || items[slot].None? {
        return None;
      }
      item := items[slot];
      items := items[slot := None];
    }

    /** The part of a sale about the inventory: some of a stack, or the whole item. */
    method TakeToSell(slot: nat, quantity: Amount) returns (sold: Item)
      requires Has(items, slot)
      modifies this
      ensures (items, sold) == TakenToSell(old(items), slot, quantity)
    {
      var item := items[slot].value;
      if item.quantity.Some? && item.quantity.value != quantity {
        Put(slot, Some(item.(quantity := Some((item.quantity.value - quantity) % 0x1_0000))));
        return item.(quantity := Some(quantity));
      }
      var withdrawn := WithdrawItem(slot);
      return withdrawn.value;
    }

    /** The part of moveItem that puts two stacks together. */
    method PutTogether(src: nat, dest: nat, quantity: Amount)
      requires Has(items, src) && Has(items, dest) && Stacks(items, src, dest)
      modifies this
      ensures items == Together(old(items), src, dest, quantity)
    {
      var b := items[dest].value;
      var moved := Min(b.maxStack - b.quantity.value, quantity);
      Put(dest, Some(b.(quantity := Some(b.quantity.value + moved))));
      var left := items[src].value;
      if left.quantity.value > quantity {
        Put(src, Some(left.(quantity := Some(left.quantity.value - quantity))));
      } else {
        Put(src, None);
      }
    }

    /** moveItem; false when it throws. */
    method MoveItem(src: nat, dest: nat, quantity: Amount) returns (ok: bool)
      modifies this
      ensures (items, ok) == Rearranged(old(items), src, dest, quantity)
      ensures ok <==> src < |old(items)| && (old(items)[src].Some? ==> dest < |old(items)|)
      ensures |items| == |old(items)|
      ensures forall i | 0 <= i < |items| && i != src && i != dest :: items[i] == old(items)[i]
      ensures !Has(old(items), src) || dest >= |items| ==> items == old(items)
      ensures Has(old(items), src) && dest < |items| && src != dest ==>
                MovedTo(old(items)[src].value, old(items)[dest], items[dest], items[src], quantity)
      ensures forall ref: nat :: Sum(items, ref) ==
                Sum(old(items), ref) + MoveGain(old(items), src, dest, quantity, ref)
    {
      hide Sum, MoveGain, MovedTo;
      RearrangedSlots(items, src, dest, quantity);
      forall ref: nat
        ensures Sum(Rearranged(items, src, dest, quantity).0, ref) ==
                Sum(items, ref) + MoveGain(items, src, dest, quantity, ref)
      {
        RearrangedSum(items, src, dest, quantity, ref);
      }
      if src >= |items| {
        return false;
      }
      if items[src].None? {
        return true;
      }
      if dest >= |items| {
        return false;
      }
      var a := items[src].value;
      if items[dest].Some? {
        var b := items[dest].value;
        if a.refId == b.refId && a.quantity.Some? && b.quantity.Some? && b.maxStack - b.quantity.value != 0 {
          PutTogether(src, dest, quantity);
        } else {
          Put(dest, Some(a));
          Put(src, Some(b));
        }
      } else if a.quantity.Some? && a.quantity.value > quantity {
        Put(src, Some(a.(quantity := Some(a.quantity.value - quantity))));
        Put(dest, Some(a.(quantity := Some(quantity))));
      } else {
        Put(dest, Some(a));
        Put(src, None);
      }
      return true;
    }

    method Put(slot: nat, o: Option<Item>)
      requires slot < |items|
      modifies this
      ensures items == old(items)[slot := o]
    {
      items := items[slot := o];
    }
  }

  /** The last five items sold. */
  class BuybackQueue {
    const items: array<Option<Item>>
    var size: nat

    constructor ()
      ensures Valid() && size == 0 && fresh(items)
    {
      items := new Option<Item>[5](_ => None);
      size := 0;
    }

    ghost predicate Valid()
      reads this, items
    {
      && items.Length == 5 && size <= 5
      && forall i | 0 <= i < 5 :: items[i].Some? <==> i < size
    }

    function Contents(): Slots
      reads this, items
      requires size <= items.Length
    {
      items[..size]
    }

    /** destroyItem: the later items move up. */
    method DestroyItem(slot: nat)
      requires Valid() && slot < size
      modifies this, items
      ensures Valid() && Contents() == old(Contents())[..slot] + old(Contents())[slot + 1..]
    {
      ghost var was := items[..];
      var k := slot + 1;
      while k < size
        invariant slot + 1 <= k <= size && size == old(size)
        invariant forall j | slot + 1 <= j < k :: items[j - 1] == was[j]
        invariant forall i | 0 <= i < 5 && (i < slot || k - 1 <= i) :: items[i] == was[i]
      {
        items[k - 1] := items[k];
        k := k + 1;
      }
      size := size - 1;
      items[size] := None;
      forall i | slot <= i < size
        ensures items[i] == was[i + 1]
      {
        assert items[(i + 1) - 1] == was[i + 1];
      }
    }

    /** addItem: the oldest of five items has to go. */
    method AddItem(item: Item)
      requires Valid()
      modifies this, items
      ensures Valid() && Contents() == (if old(size) == 5 then old(Contents())[1..] else old(Contents())) + [Some(item)]
    {
      if size == items.Length {
        DestroyItem(0);
      }
      items[size] := Some(item);
      size := size + 1;
    }

    /** withdrawItem; None when it throws. */
    method WithdrawItem(slot: nat) returns (item: Option<Item>)
      requires Valid()
      modifies this, items
      ensures Valid()
      ensures item == if slot < old(size) then old(Contents())[slot] else None
      ensures slot < old(size) ==> item.Some? && Contents() == old(Contents())[..slot] + old(Contents())[slot + 1..]
      ensures slot >= old(size) ==> Contents() == old(Contents())
    {
      if slot >= size {
        return None;
      }
      item := items[slot];
      DestroyItem(slot);
    }

    /** The quantity of an item in the queue changes. */
    method SetItem(slot: nat, item: Item)
      requires Valid() && slot < size
      modifies items
      ensures Valid() && Contents() == old(Contents())[slot := Some(item)]
    {
      items[slot] := Some(item);
    }
  }

  // ---------------------------------------------------------------- all containers

  datatype Movement =
    | Transfer(from: nat, to: nat, srcSlot: nat, destSlot: nat)
    | Move(within: nat, srcSlot: nat, destSlot: nat, quantity: Amount)
    | Sell(srcSlot: nat, quantity: Amount)
    | Buyback(srcSlot: nat, destSlot: nat, quantity: Amount)

  /** What the containers hold: the inventory first, then the chest, the guild chest, the avatar inventory and the pets'
      inventories; and the buyback queue. */
  datatype Contents = Contents(stores: seq<Slots>, queue: Slots)

  /** How much of `ref` there is. */
  function Quantity(c: Contents, ref: nat): nat
  {
    SumAll(c.stores, ref) + Sum(c.queue, ref)
  }

  predicate WellFormed(n: nat, m: Movement)
  {
    && n > 0
    && (m.Transfer? ==> m.from < n && m.to < n && m.from != m.to)
    && (m.Move? ==> m.within < n)
  }

  predicate Full(queue: Slots) { |queue| == 5 }

  /** A full buyback queue loses its oldest item. */
  function Queued(queue: Slots, item: Item): Slots
  {
    (if Full(queue) then queue[1..] else queue) + [Some(item)]
  }

  /** The buyback queue holds items without gaps. */
  predicate NoGaps(queue: Slots)
  {
    |queue| <= 5 && forall i | 0 <= i < |queue| :: queue[i].Some?
  }

  /** The destination of a transfer is there and free. */
  predicate Free(s: Slots, slot: nat) { slot < |s| && s[slot].None? }

  /** One movement: the contents afterwards, and whether it does not throw. */
  function Stepped(c: Contents, m: Movement): (r: (Contents, bool))
    requires WellFormed(|c.stores|, m) && NoGaps(c.queue)
    ensures |r.0.stores| == |c.stores| && NoGaps(r.0.queue)
  {
    match m
    case Transfer(from, to, src, dest) => Transferred(c, from, to, src, dest)
    case Move(k, src, dest, quantity) =>
      var r := Rearranged(c.stores[k], src, dest, quantity);
      (c.(stores := c.stores[k := r.0]), r.1)
    case Sell(src, quantity) => Sold(c, src, quantity)
    case Buyback(src, dest, quantity) => BoughtBack(c, src, dest, quantity)
  }

  function Transferred(c: Contents, from: nat, to: nat, src: nat, dest: nat): (r: (Contents, bool))
    requires from < |c.stores| && to < |c.stores| && from != to
    ensures |r.0.stores| == |c.stores| && r.0.queue == c.queue
  {
    var s, t := c.stores[from], c.stores[to];
    if !Has(s, src) then (c, false)
    else if !Free(t, dest) then (c.(stores := c.stores[from := s[src := None]]), false)
    else (c.(stores := c.stores[from := s[src := None]][to := t[dest := s[src]]]), true)
  }

  function Sold(c: Contents, src: nat, quantity: Amount): (r: (Contents, bool))
    requires |c.stores| > 0 && NoGaps(c.queue)
    ensures |r.0.stores| == |c.stores| && NoGaps(r.0.queue)
  {
    var s := c.stores[0];
    if src >= |s| then (c, false)
    else if s[src].None? then (c, true)
    else
      var r := TakenToSell(s, src, quantity);
      (Contents(c.stores[0 := r.0], Queued(c.queue, r.1)), true)
  }

  /** What is bought back: part of a stack, or the whole item. */
  function Bought(queue: Slots, src: nat, quantity: Amount): (r: (Slots, Item))
    requires NoGaps(queue) && src < |queue|
    ensures NoGaps(r.0)
  {
    var item := queue[src].value;
    if quantity > 1 && item.quantity.Some? && item.quantity.value > quantity then
      (queue[src := Some(item.(quantity := Some(item.quantity.value - quantity)))], item.(quantity := Some(quantity)))
    else (queue[..src] + queue[src + 1..], item)
  }

  function BoughtBack(c: Contents, src: nat, dest: nat, quantity: Amount): (r: (Contents, bool))
    requires |c.stores| > 0 && NoGaps(c.queue)
    ensures |r.0.stores| == |c.stores| && NoGaps(r.0.queue)
  {
    var s := c.stores[0];
    if src >= 5 then (c, false)
    else if src >= |c.queue| then (c, true)
    else if dest >= |s| then (c, false)
    else if s[dest].Some? then (c, true)
    else
      var r := Bought(c.queue, src, quantity);
      (Contents(c.stores[0 := s[dest := Some(r.1)]], r.0), true)
  }

  // ---------------------------------------------------------------- what a movement keeps

  /** How much a movement changes the quantity of `ref`: a transfer loses the item that has left its place when the
      destination turns out to be taken or out of range, stacks that are put together gain or lose what does not fit,
      and a sale makes up what wraps around and loses the oldest item of a full queue. */
  function Change(c: Contents, m: Movement, ref: nat): int
    requires WellFormed(|c.stores|, m) && NoGaps(c.queue)
  {
    match m
    case Transfer(from, to, src, dest) =>
      if Has(c.stores[from], src) && !Free(c.stores[to], dest) then 0 - WeightOf(c.stores[from][src], ref) else 0
    case Move(k, src, dest, quantity) => MoveGain(c.stores[k], src, dest, quantity, ref)
    case Sell(src, quantity) =>
      if !Has(c.stores[0], src) then 0
      else (if c.stores[0][src].value.refId == ref then Wrapped(c.stores[0][src].value, quantity) else 0)
           - (if Full(c.queue) then WeightOf(c.queue[0], ref) else 0)
    case Buyback(_, _, _) => 0
  }

  lemma StepChanges(c: Contents, m: Movement, ref: nat)
    requires WellFormed(|c.stores|, m) && NoGaps(c.queue)
    ensures Quantity(Stepped(c, m).0, ref) == Quantity(c, ref) + Change(c, m, ref)
  {
    hide Sum, SumAll, Rearranged, MoveGain;
    match m {
      case Transfer(from, to, src, dest) =>
        TransferChanges(c, from, to, src, dest, ref);
      case Move(k, src, dest, quantity) =>
        SumAllUpdate(c.stores, k, Rearranged(c.stores[k], src, dest, quantity).0, ref);
        RearrangedSum(c.stores[k], src, dest, quantity, ref);
      case Sell(src, quantity) =>
        SaleChanges(c, src, quantity, ref);
      case Buyback(src, dest, quantity) =>
        BuybackChanges(c, src, dest, quantity, ref);
    }
  }

  lemma TransferChanges(c: Contents, from: nat, to: nat, src: nat, dest: nat, ref: nat)
    requires from < |c.stores| && to < |c.stores| && from != to
    ensures Quantity(Transferred(c, from, to, src, dest).0, ref) == Quantity(c, ref) +
            if Has(c.stores[from], src) && !Free(c.stores[to], dest) then 0 - WeightOf(c.stores[from][src], ref) else 0
  {
    hide Sum, SumAll, WeightOf;
    var s, t := c.stores[from], c.stores[to];
    if Has(s, src) {
      var less := c.stores[from := s[src := None]];
      NoWeight(ref);
      SumUpdate(s, src, None, ref);
      SumAllUpdate(c.stores, from, s[src := None], ref);
      if Free(t, dest) {
        SumUpdate(t, dest, s[src], ref);
        SumAllUpdate(less, to, t[dest := s[src]], ref);
      }
    }
  }

  lemma NoWeight(ref: nat)
    ensures WeightOf(None, ref) == 0
  {
  }

  lemma SaleChanges(c: Contents, src: nat, quantity: Amount, ref: nat)
    requires |c.stores| > 0 && NoGaps(c.queue)
    ensures Quantity(Sold(c, src, quantity).0, ref) == Quantity(c, ref) +
            if !Has(c.stores[0], src) then 0
            else (if c.stores[0][src].value.refId == ref then Wrapped(c.stores[0][src].value, quantity) else 0)
                 - (if Full(c.queue) then WeightOf(c.queue[0], ref) else 0)
  {
    hide Sum, SumAll;
    var s := c.stores[0];
    if Has(s, src) {
      var r := TakenToSell(s, src, quantity);
      TakenSum(s, src, quantity, ref);
      SumAllUpdate(c.stores, 0, r.0, ref);
      QueueSum(c.queue, r.1, ref);
    }
  }

  lemma TakenSum(s: Slots, src: nat, quantity: Amount, ref: nat)
    requires Has(s, src)
    ensures var r := TakenToSell(s, src, quantity);
            Sum(r.0, ref) + WeightOf(Some(r.1), ref) ==
            Sum(s, ref) + if s[src].value.refId == ref then Wrapped(s[src].value, quantity) else 0
  {
    hide Sum;
    var item := s[src].value;
    if item.quantity.Some? && item.quantity.value != quantity {
      SumUpdate(s, src, Some(item.(quantity := Some((item.quantity.value - quantity) % 0x1_0000))), ref);
    } else {
      SumUpdate(s, src, None, ref);
    }
  }

  lemma QueueSum(queue: Slots, item: Item, ref: nat)
    ensures Sum(Queued(queue, item), ref) ==
            Sum(queue, ref) + WeightOf(Some(item), ref) - (if Full(queue) then WeightOf(queue[0], ref) else 0)
  {
    hide Sum, WeightOf;
    var rest := if Full(queue) then queue[1..] else queue;
    SumConcat(rest, [Some(item)], ref);
    SumOne(Some(item), ref);
    if Full(queue) {
      SumRemove(queue, 0, ref);
      assert queue[..0] + queue[1..] == rest;
    }
  }

  lemma BuybackChanges(c: Contents, src: nat, dest: nat, quantity: Amount, ref: nat)
    requires |c.stores| > 0 && NoGaps(c.queue)
    ensures Quantity(BoughtBack(c, src, dest, quantity).0, ref) == Quantity(c, ref)
  {
    hide Sum, SumAll;
    var s := c.stores[0];
    if src < |c.queue| && Free(s, dest) {
      var r := Bought(c.queue, src, quantity);
      BoughtSum(c.queue, src, quantity, ref);
      SumUpdate(s, dest, Some(r.1), ref);
      SumAllUpdate(c.stores, 0, s[dest := Some(r.1)], ref);
    }
  }

  lemma BoughtSum(queue: Slots, src: nat, quantity: Amount, ref: nat)
    requires NoGaps(queue) && src < |queue|
    ensures Sum(Bought(queue, src, quantity).0, ref) + WeightOf(Some(Bought(queue, src, quantity).1), ref) ==
            Sum(queue, ref)
  {
    hide Sum;
    var item := queue[src].value;
    if quantity > 1 && item.quantity.Some? && item.quantity.value > quantity {
      SumUpdate(queue, src, Some(item.(quantity := Some(item.quantity.value - quantity))), ref);
    } else {
      SumRemove(queue, src, ref);
    }
  }

  /** What a caller can see before the movement: a transfer of something goes to a free slot; an amount put onto a stack
      fits; a sale is at most the stack, and the queue has room or its oldest stack is empty. */
  predicate Fair(c: Contents, m: Movement)
    requires WellFormed(|c.stores|, m) && NoGaps(c.queue)
  {
    match m
    case Transfer(from, to, src, dest) =>
      Has(c.stores[from], src) ==> Free(c.stores[to], dest) || Weight(c.stores[from][src].value) == 0
    case Move(k, src, dest, quantity) =>
      var s := c.stores[k];
      Has(s, src) && Has(s, dest) && Stacks(s, src, dest) ==> Fits(s, src, dest, quantity)
    case Sell(src, quantity) =>
      Has(c.stores[0], src) ==>
        && (var item := c.stores[0][src].value; item.quantity.Some? ==> quantity <= item.quantity.value)
        && (Full(c.queue) ==> Weight(c.queue[0].value) == 0)
    case Buyback(_, _, _) => true
  }

  ghost predicate SameQuantities(c: Contents, d: Contents)
  {
    forall ref: nat :: Quantity(d, ref) == Quantity(c, ref)
  }

  /** A movement keeps the quantity of every item if and only if it is fair. */
  lemma FairKeeps(c: Contents, m: Movement)
    requires WellFormed(|c.stores|, m) && NoGaps(c.queue)
    ensures Fair(c, m) <==> SameQuantities(c, Stepped(c, m).0)
  {
    hide Quantity, Stepped, Change;
    forall ref: nat
      ensures Quantity(Stepped(c, m).0, ref) == Quantity(c, ref) + Change(c, m, ref)
    {
      StepChanges(c, m, ref);
    }
    if Fair(c, m) {
      forall ref: nat
        ensures Change(c, m, ref) == 0
      {
        FairChange(c, m, ref);
      }
    } else {
      var ref := UnfairChange(c, m);
      assert Quantity(Stepped(c, m).0, ref) != Quantity(c, ref);
    }
  }

  lemma FairChange(c: Contents, m: Movement, ref: nat)
    requires WellFormed(|c.stores|, m) && NoGaps(c.queue) && Fair(c, m)
    ensures Change(c, m, ref) == 0
  {
    hide Gained, Fits;
    if m.Move? {
      var s := c.stores[m.within];
      if Has(s, m.srcSlot) && Has(s, m.destSlot) && Stacks(s, m.srcSlot, m.destSlot) {
        GainedNothing(s, m.srcSlot, m.destSlot, m.quantity);
      }
    }
  }

  /** The item whose quantity an unfair movement changes. */
  lemma UnfairChange(c: Contents, m: Movement) returns (ref: nat)
    requires WellFormed(|c.stores|, m) && NoGaps(c.queue) && !Fair(c, m)
    ensures Change(c, m, ref) != 0
  {
    hide Gained, Fits;
    match m {
      case Transfer(from, to, src, dest) =>
        ref := c.stores[from][src].value.refId;
      case Move(k, src, dest, quantity) =>
        GainedNothing(c.stores[k], src, dest, quantity);
        ref := c.stores[k][src].value.refId;
      case Sell(src, quantity) =>
        var item := c.stores[0][src].value;
        WrappedNothing(item, quantity);
        ref := if item.quantity.Some? && quantity > item.quantity.value then item.refId else c.queue[0].value.refId;
    }
  }

  // ---------------------------------------------------------------- slot by slot

  /** A transfer: the item itself goes to the other container, if there is a free slot for it there. */
  lemma TransferredSlots(c: Contents, from: nat, to: nat, src: nat, dest: nat)
    requires from < |c.stores| && to < |c.stores| && from != to
    ensures var (d, ok) := Transferred(c, from, to, src, dest);
            && d.queue == c.queue && (ok <==> Has(c.stores[from], src) && Free(c.stores[to], dest))
            && (forall k | 0 <= k < |c.stores| :: |d.stores[k]| == |c.stores[k]|)
            && (forall k, i | 0 <= k < |c.stores| && 0 <= i < |c.stores[k]| && !(k == from && i == src)
                              && !(k == to && i == dest) ::
                  d.stores[k][i] == c.stores[k][i])
            && (Has(c.stores[from], src) ==> d.stores[from][src] == None)
            && (ok ==> d.stores[to][dest] == c.stores[from][src])
  {
  }

  /** A sale: the amount that was sold is the newest in the queue, and the rest stays in its slot; all of it goes when
      the amount is the whole stack, and for an item that is no stack. */
  lemma SoldSlots(c: Contents, src: nat, quantity: Amount)
    requires |c.stores| > 0 && NoGaps(c.queue) && Has(c.stores[0], src)
    ensures var (d, ok) := Sold(c, src, quantity); var item := c.stores[0][src].value;
            && ok && |d.stores[0]| == |c.stores[0]| && d.stores[1..] == c.stores[1..]
            && (forall i | 0 <= i < |c.stores[0]| && i != src :: d.stores[0][i] == c.stores[0][i])
            && d.queue == (if |c.queue| == 5 then c.queue[1..] else c.queue) + [d.queue[|d.queue| - 1]]
            && d.queue[|d.queue| - 1] == Some(Item(item.refId, if item.quantity.Some? then Some(quantity) else None,
                                                   item.maxStack))
            && d.stores[0][src] ==
               if item.quantity.None? || quantity == item.quantity.value then None
               else Some(Item(item.refId, Some((item.quantity.value - quantity) % 0x1_0000), item.maxStack))
  {
  }

  /** A buyback into a free slot: an amount of at least two that is less than the stack comes out of it and leaves the
      rest in the queue; otherwise the whole item comes back and the later ones move up. */
  lemma BoughtSlots(c: Contents, src: nat, dest: nat, quantity: Amount)
    requires |c.stores| > 0 && NoGaps(c.queue) && src < |c.queue| && Free(c.stores[0], dest)
    ensures var (d, ok) := BoughtBack(c, src, dest, quantity); var item := c.queue[src].value;
            && ok && |d.stores[0]| == |c.stores[0]| && d.stores[1..] == c.stores[1..]
            && (forall i | 0 <= i < |c.stores[0]| && i != dest :: d.stores[0][i] == c.stores[0][i])
            && if item.quantity.Some? && 2 <= quantity < item.quantity.value then
                 && d.stores[0][dest] == Some(Item(item.refId, Some(quantity), item.maxStack))
                 && |d.queue| == |c.queue|
                 && d.queue[src] == Some(Item(item.refId, Some(item.quantity.value - quantity), item.maxStack))
                 && forall i | 0 <= i < |c.queue| && i != src :: d.queue[i] == c.queue[i]
               else
                 && d.stores[0][dest] == c.queue[src] && |d.queue| + 1 == |c.queue|
                 && (forall i | 0 <= i < src :: d.queue[i] == c.queue[i])
                 && forall i | src < i < |c.queue| :: d.queue[i - 1] == c.queue[i]
  {
  }

  /** When there is nothing to sell or to buy back, or no room for it, nothing changes; a place that does not exist
      throws. */
  lemma NothingTraded(c: Contents, src: nat, dest: nat, quantity: Amount)
    requires |c.stores| > 0 && NoGaps(c.queue)
    ensures !Has(c.stores[0], src) ==> Sold(c, src, quantity) == (c, src < |c.stores[0]|)
    ensures src >= |c.queue| || !Free(c.stores[0], dest) ==>
              BoughtBack(c, src, dest, quantity) == (c, src < 5 && (src < |c.queue| ==> dest < |c.stores[0]|))
  {
  }

  // ---------------------------------------------------------------- items that are lost

  /** A stack of the item 7, of at most 100. */
  function Stack(n: Amount): Option<Item> { Some(Item(7, Some(n), 100)) }

  /** The only sword goes to a chest whose first slot is taken. */
  lemma TransferLoses()
    ensures var sword := Some(Item(5, None, 1));
            var c := Contents([[sword], [Stack(1)]], []);
            Quantity(c, 5) == 1 && Quantity(Stepped(c, Transfer(0, 1, 0, 0)).0, 5) == 0
  {
    var sword := Some(Item(5, None, 1));
    var c := Contents([[sword], [Stack(1)]], []);
    assert [sword][0 := None] == [None] && c.stores[0 := [None]] == [[None], [Stack(1)]];
    TwoStores([sword], [Stack(1)], 5);
    TwoStores([None], [Stack(1)], 5);
  }

  lemma TwoStores(s: Slots, t: Slots, ref: nat)
    requires |s| == |t| == 1
    ensures Quantity(Contents([s, t], []), ref) == WeightOf(s[0], ref) + WeightOf(t[0], ref)
  {
    SumOne(s[0], ref);
    SumOne(t[0], ref);
    assert s == [s[0]] && t == [t[0]] && [s, t][..1] == [s] && [s][..0] == [];
    assert SumAll([s], ref) == Sum(s, ref);
  }

  /** Of 50 that are put onto 90, ten are added; of 60 that are put onto themselves, 50 stay. */
  lemma StacksLose()
    ensures Rearranged([Stack(50), Stack(90)], 0, 1, 50).0 == [None, Stack(100)]
    ensures Rearranged([Stack(60)], 0, 0, 50).0 == [Stack(50)]
  {
  }

  /** Three are sold of a stack of two: 65535 stay.  With five items in the buyback queue, the oldest one goes. */
  lemma SaleLoses()
    ensures Sold(Contents([[Stack(2)]], []), 0, 3) == (Contents([[Stack(0xffff)]], [Stack(3)]), true)
    ensures var queue := [Stack(1), Stack(2), Stack(3), Stack(4), Stack(5)];
            Sold(Contents([[Stack(6)]], queue), 0, 6) ==
            (Contents([[None]], [Stack(2), Stack(3), Stack(4), Stack(5), Stack(6)]), true)
  {
    SoldOne([], 2, 3);
    assert (2 - 3) % 0x1_0000 == 0xffff;
    assert Queued([], Stack(3).value) == [Stack(3)];
    var queue := [Stack(1), Stack(2), Stack(3), Stack(4), Stack(5)];
    SoldOne(queue, 6, 6);
    assert Queued(queue, Stack(6).value) == [Stack(2), Stack(3), Stack(4), Stack(5), Stack(6)];
  }

  /** A sale of the only stack in the inventory. */
  lemma SoldOne(queue: Slots, have: Amount, quantity: Amount)
    requires NoGaps(queue)
    ensures Sold(Contents([[Stack(have)]], queue), 0, quantity) ==
            (Contents([[if have == quantity then None else Stack((have - quantity) % 0x1_0000)]],
                      Queued(queue, Stack(quantity).value)), true)
  {
    var left := if have == quantity then None else Stack((have - quantity) % 0x1_0000);
    assert [Stack(have)][0 := left] == [left];
    assert [[Stack(have)]][0 := [left]] == [[left]];
  }

  // ---------------------------------------------------------------- lists of movements

  /** A list of movements, up to the first that throws. */
  function Run(c: Contents, ms: seq<Movement>): (r: (Contents, bool))
    requires NoGaps(c.queue) && forall m | m in ms :: WellFormed(|c.stores|, m)
    ensures |r.0.stores| == |c.stores| && NoGaps(r.0.queue)
    decreases |ms|
  {
    if |ms| == 0 then (c, true)
    else
      var r := Stepped(c, ms[0]);
      if r.1 then Run(r.0, ms[1..]) else r
  }

  /** Each movement is fair when it comes up. */
  predicate FairRun(c: Contents, ms: seq<Movement>)
    requires NoGaps(c.queue) && forall m | m in ms :: WellFormed(|c.stores|, m)
    decreases |ms|
  {
    |ms| > 0 ==> Fair(c, ms[0]) && (Stepped(c, ms[0]).1 ==> FairRun(Stepped(c, ms[0]).0, ms[1..]))
  }

  lemma RunOne(c: Contents, m: Movement)
    requires NoGaps(c.queue) && WellFormed(|c.stores|, m)
    ensures Run(c, [m]) == Stepped(c, m) && Run(c, []) == (c, true)
  {
    hide Stepped;
    assert [m][1..] == [];
  }

  lemma RunNext(c: Contents, ms: seq<Movement>, k: nat)
    requires NoGaps(c.queue) && (forall m | m in ms :: WellFormed(|c.stores|, m)) && 0 < k <= |ms|
    ensures var r := Stepped(c, ms[0]); Run(c, ms[..k]) == if r.1 then Run(r.0, ms[1..][..k - 1]) else r
  {
    hide Stepped;
    assert ms[..k][1..] == ms[1..][..k - 1];
  }

  /** The quantity of every item is the same after each of the movements if and only if each is fair when it comes
      up. */
  lemma {:induction false} FairRunKeeps(c: Contents, ms: seq<Movement>)
    requires NoGaps(c.queue) && forall m | m in ms :: WellFormed(|c.stores|, m)
    ensures FairRun(c, ms) <==> forall k | 0 <= k <= |ms| :: SameQuantities(c, Run(c, ms[..k]).0)
    decreases |ms|
  {
    hide Stepped, Quantity, Fair;
    if |ms| == 0 {
      assert ms[..0] == [];
    } else {
      var r := Stepped(c, ms[0]);
      FairKeeps(c, ms[0]);
      RunNext(c, ms, 1);
      if r.1 {
        FairRunKeeps(r.0, ms[1..]);
      }
      if FairRun(c, ms) {
        forall k | 0 <= k <= |ms|
          ensures SameQuantities(c, Run(c, ms[..k]).0)
        {
          if k > 0 {
            RunNext(c, ms, k);
          }
        }
      } else if forall k | 0 <= k <= |ms| :: SameQuantities(c, Run(c, ms[..k]).0) {
        assert SameQuantities(c, Run(c, ms[..1]).0);
        forall k | 0 <= k <= |ms| - 1
          ensures r.1 ==> SameQuantities(r.0, Run(r.0, ms[1..][..k]).0)
        {
          RunNext(c, ms, k + 1);
        }
      }
    }
  }

  // ---------------------------------------------------------------- the code

  predicate AllDistinct(s: seq<Storage>)
  {
    forall i, j | 0 <= i < j < |s| :: s[i] != s[j]
  }

  /** The containers of the own character, and the buyback queue. */
  class SelfEntity {
    const stores: seq<Storage>
    const buyback: BuybackQueue

    constructor (stores: seq<Storage>, buyback: BuybackQueue)
      requires |stores| > 0 && AllDistinct(stores) && buyback.Valid()
      ensures Valid() && this.stores == stores && this.buyback == buyback
    {
      this.stores, this.buyback := stores, buyback;
    }

    ghost predicate Valid()
      reads this, stores, buyback, buyback.items
    {
      |stores| > 0 && AllDistinct(stores) && buyback.Valid()
    }

    ghost function All(): (r: seq<Slots>)
      reads this, stores
      ensures |r| == |stores| && forall i | 0 <= i < |stores| :: r[i] == stores[i].items
    {
      seq(|stores|, i requires 0 <= i < |stores| reads this, stores => stores[i].items)
    }

    ghost function Now(): (c: Contents)
      reads this, stores, buyback, buyback.items
      requires Valid()
      ensures |c.stores| == |stores| && NoGaps(c.queue)
    {
      Contents(All(), buyback.Contents())
    }

    /** How much of `ref` there is. */
    ghost function Total(ref: nat): nat
      reads this, stores, buyback, buyback.items
      requires Valid()
    {
      Quantity(Now(), ref)
    }

    /** A transfer between two containers. */
    method DoTransfer(m: Movement) returns (ok: bool)
      requires Valid() && m.Transfer? && WellFormed(|stores|, m)
      modifies stores
      ensures Valid() && (Now(), ok) == Stepped(old(Now()), m)
      ensures forall ref: nat :: Total(ref) == old(Total(ref)) + Change(old(Now()), m, ref)
    {
      hide Quantity, Change;
      ghost var c := Now();
      AllChanges(c, m);
      var a, b := stores[m.from], stores[m.to];
      var item := a.WithdrawItem(m.srcSlot);
      ghost var mid := All();
      if item.None? {
        assert mid == c.stores;
        return false;
      }
      assert mid == c.stores[m.from := a.items];
      ok := b.AddItem(m.destSlot, item.value);
      assert All() == mid[m.to := b.items];
      assert !ok ==> mid[m.to := b.items] == mid;
    }

    /** A move within one container. */
    method DoMove(m: Movement) returns (ok: bool)
      requires Valid() && m.Move? && WellFormed(|stores|, m)
      modifies stores
      ensures Valid() && (Now(), ok) == Stepped(old(Now()), m)
      ensures forall ref: nat :: Total(ref) == old(Total(ref)) + Change(old(Now()), m, ref)
    {
      hide Quantity, Change, Rearranged;
      ghost var c := Now();
      AllChanges(c, m);
      ok := stores[m.within].MoveItem(m.srcSlot, m.destSlot, m.quantity);
      assert All() == c.stores[m.within := stores[m.within].items];
    }

    /** Sell part or all of what the inventory holds in a slot. */
    method DoSell(m: Movement) returns (ok: bool)
      requires Valid() && m.Sell?
      modifies stores, buyback, buyback.items
      ensures Valid() && (Now(), ok) == Stepped(old(Now()), m)
      ensures forall ref: nat :: Total(ref) == old(Total(ref)) + Change(old(Now()), m, ref)
    {
      hide Quantity, Change, TakenToSell;
      ghost var c := Now();
      AllChanges(c, m);
      var inventory := stores[0];
      if m.srcSlot >= |inventory.items| {
        return false;
      }
      if inventory.items[m.srcSlot].None? {
        return true;
      }
      var sold := inventory.TakeToSell(m.srcSlot, m.quantity);
      ghost var mid := All();
      assert mid == c.stores[0 := inventory.items];
      buyback.AddItem(sold);
      assert All() == mid;
      return true;
    }

    /** Buy back part or all of an item in the queue: nothing is gained or lost, whatever the quantity. */
    method DoBuyback(m: Movement) returns (ok: bool)
      requires Valid() && m.Buyback?
      modifies stores, buyback, buyback.items
      ensures Valid() && (Now(), ok) == Stepped(old(Now()), m)
      ensures forall ref: nat :: Total(ref) == old(Total(ref))
    {
      hide Quantity;
      ghost var c := Now();
      AllChanges(c, m);
      var inventory := stores[0];
      if m.srcSlot >= 5 {
        return false;
      }
      if m.srcSlot >= buyback.size {
        return true;
      }
      if m.destSlot >= |inventory.items| {
        return false;
      }
      if inventory.items[m.destSlot].Some? {
        return true;
      }
      var bought := TakeBack(m.srcSlot, m.quantity);
      assert All() == c.stores;
      inventory.Put(m.destSlot, Some(bought));
      assert All() == c.stores[0 := inventory.items];
      return true;
    }

    /** The part of a buyback about the queue. */
    method TakeBack(slot: nat, quantity: Amount) returns (bought: Item)
      requires buyback.Valid() && slot < buyback.size
      modifies buyback, buyback.items
      ensures buyback.Valid() && (buyback.Contents(), bought) == Bought(old(buyback.Contents()), slot, quantity)
    {
      var item := buyback.items[slot].value;
      if quantity > 1 && item.quantity.Some? && item.quantity.value > quantity {
        buyback.SetItem(slot, item.(quantity := Some(item.quantity.value - quantity)));
        return item.(quantity := Some(quantity));
      }
      var withdrawn := buyback.WithdrawItem(slot);
      return item;
    }

    /** One movement of serverAgentInventoryOperationResponseReceived. */
    method Apply(m: Movement) returns (ok: bool)
      requires Valid() && WellFormed(|stores|, m)
      modifies stores, buyback, buyback.items
      ensures Valid() && (Now(), ok) == Stepped(old(Now()), m)
    {
      hide Quantity, Stepped, Change;
      match m {
        case Transfer(_, _, _, _) => ok := DoTransfer(m);
        case Move(_, _, _, _) => ok := DoMove(m);
        case Sell(_, _) => ok := DoSell(m);
        case Buyback(_, _, _) => ok := DoBuyback(m);
      }
    }

    /** A list of movements, up to the first that throws; when each is fair as it comes up, the quantity of every item
        stays as it is. */
    method ApplyAll(ms: seq<Movement>) returns (ok: bool)
      requires Valid() && forall m | m in ms :: WellFormed(|stores|, m)
      modifies stores, buyback, buyback.items
      ensures Valid() && (Now(), ok) == Run(old(Now()), ms)
      ensures FairRun(old(Now()), ms) ==> forall ref: nat :: Total(ref) == old(Total(ref))
    {
      hide Quantity, Stepped, FairRun;
      ghost var c := Now();
      FairRunKeeps(c, ms);
      assert ms[..|ms|] == ms;
      var rest := ms;
      while rest != []
        invariant Valid() && (forall m | m in rest :: WellFormed(|stores|, m)) && Run(Now(), rest) == Run(c, ms)
        decreases |rest|
      {
        ok := Apply(rest[0]);
        if !ok {
          return;
        }
        rest := rest[1..];
      }
      assert rest == [];
      return true;
    }
  }

  lemma AllChanges(c: Contents, m: Movement)
    requires WellFormed(|c.stores|, m) && NoGaps(c.queue)
    ensures forall ref: nat :: Quantity(Stepped(c, m).0, ref) == Quantity(c, ref) + Change(c, m, ref)
  {
    hide Quantity, Stepped, Change;
    forall ref: nat
      ensures Quantity(Stepped(c, m).0, ref) == Quantity(c, ref) + Change(c, m, ref)
    {
      StepChanges(c, m, ref);
    }
  }
}
