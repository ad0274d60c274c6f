/** The argv copy made for cef_execute_process and cef_initialize
    (native/cef_shim.c:465-529, 585-627): what is allocated is freed once, whichever
    allocation fails. */
module CefArgv {
  import opened Wrappers

  type Block = nat

  const INT_MAX := 0x7fff_ffff
  const SIZE_MAX := 0xffff_ffff_ffff_ffff

  datatype Status = Running | Stopped | Failed | InvalidRequest

  /** The block an argv slot points to holds the argument and its terminator. */
  ghost predicate Holds(live: map<Block, string>, slot: Option<Block>, arg: string)
  {
    slot.Some? && slot.value in live && live[slot.value] == arg + ['\0']
  }

  /** The blocks of the filled slots. */
  function Filled(slots: seq<Option<Block>>): set<Block>
  {
    set s | s in slots && s.Some? :: s.value
  }

  /** The filled slots point to different blocks. */
  predicate PointApart(slots: seq<Option<Block>>)
  {
    forall i, j :: 0 <= i < j < |slots| && slots[i].Some? ==> slots[i] != slots[j]
  }

  /** The text and its terminator fit a size_t. */
  predicate Fits(text: string)
  {
    |text| <= SIZE_MAX - 1
  }

  /** The i-th text fits, and the allocation for it succeeds. */
  predicate GetsBlock(grants: nat -> bool, first: nat, texts: seq<string>, i: nat)
    requires i < |texts|
  {
    Fits(texts[i]) && grants(first + i)
  }

  predicate CopiesFrom(grants: nat -> bool, first: nat, texts: seq<string>)
  {
    forall i :: 0 <= i < |texts| ==> GetsBlock(grants, first, texts, i)
  }

  /** When the arguments can be copied, given which allocations succeed and how many were
      asked for before: their count fits an int, and the table and each argument get
      their block. No argument needs none. */
  predicate Copies(grants: nat -> bool, asked: nat, args: seq<string>)
  {
    |args| <= INT_MAX && (args == [] || (grants(asked) && CopiesFrom(grants, asked + 1, args)))
  }

  /** malloc and free, with the history of how many allocations were asked for;
      `grants(n)` says whether the n-th succeeds. */
  class Allocator {
    const grants: nat -> bool
    var asked: nat
    var live: map<Block, string>

    constructor (grants: nat -> bool)
      ensures this.grants == grants && asked == 0 && live == map[] && Valid()
    {
      this.grants := grants;
      asked, live := 0, map[];
    }

    ghost predicate Valid()
      reads this
    {
      forall b :: b in live ==> b < asked
    }

    method Malloc(content: string) returns (p: Option<Block>)
      requires Valid()
      modifies this
      ensures Valid() && asked == old(asked) + 1
      ensures p == if grants(old(asked)) then Some(old(asked)) else None
      ensures live == if p.Some? then old(live)[p.value := content] else old(live)
    {
      p := if grants(asked) then Some(asked) else None;
      if p.Some? { live := live[asked := content]; }
      asked := asked + 1;
    }

    /** Freeing NULL does nothing; anything else must be live. */
    method Free(p: Option<Block>)
      requires Valid() && (p.Some? ==> p.value in live)
      modifies this`live
      ensures Valid() && live == if p.Some? then old(live) - {p.value} else old(live)
    {
      if p.Some? { live := live - {p.value}; }
    }
  }

  class Storage {
    const heap: Allocator
    var table: Option<Block>        // storage->argv
    var slots: seq<Option<Block>>   // what it points to; storage->argc is its length

    constructor (heap: Allocator)
      ensures this.heap == heap && table.None? && slots == []
    {
      this.heap := heap;
      table, slots := None, [];
    }

    /** Everything the storage points to is live and pointed to once. */
    ghost predicate Valid()
      reads this, heap
    {
      && heap.Valid()
      && (table.None? ==> slots == [])
      && (table.Some? ==> table.value in heap.live && table.value !in Filled(slots))
      && Filled(slots) <= heap.live.Keys && PointApart(slots)
    }

    ghost function Owned(): set<Block>
      reads this
    {
      Filled(slots) + if table.Some? then {table.value} else {}
    }

    /** Frees every filled slot and the table, once. */
    method FreeArgv()
      requires Valid()
      modifies this, heap`live
      ensures Valid() && table.None? && slots == [] && heap.live == old(heap.live) - old(Owned())
    {
      if table.None? { return; }
      for i := 0 to |slots|
        invariant heap.Valid() && table == old(table) && slots == old(slots)
        invariant heap.live == old(heap.live) - Filled(slots[..i])
      {
        assert slots[i].Some? ==> slots[i].value in Filled(slots) && slots[i].value !in Filled(slots[..i]);
        heap.Free(slots[i]);
        assert slots[..i + 1] == slots[..i] + [slots[i]];
      }
      assert slots[..|slots|] == slots;
      heap.Free(table);
      table, slots := None, [];
    }

    method CopyStringView(arg: string) returns (copy: Option<Block>)
      requires heap.Valid()
      modifies heap
      ensures heap.Valid()
      ensures copy.Some? <==> Fits(arg) && heap.grants(old(heap.asked))
      ensures heap.asked == old(heap.asked) + if Fits(arg) then 1 else 0
      ensures copy.None? ==> heap.live == old(heap.live)
      ensures copy.Some? ==> copy.value !in old(heap.live) && heap.live == old(heap.live)[copy.value := arg + ['\0']]
    {
      if !Fits(arg) { return None; }
      copy := heap.Malloc(arg + ['\0']);
    }

    /** Copies one argument into its slot, or leaves everything as it was. */
    method FillSlot(i: nat, arg: string) returns (ok: bool)
      requires Valid() && table.Some? && i < |slots| && slots[i].None?
      modifies this`slots, heap
      ensures Valid() && |slots| == old(|slots|)
      ensures ok <==> Fits(arg) && heap.grants(old(heap.asked))
      ensures ok ==> heap.asked == old(heap.asked) + 1
      ensures !ok ==> slots == old(slots) && heap.live == old(heap.live)
      ensures ok ==>
        && slots[i].Some? && slots == old(slots)[i := slots[i]] && slots[i].value !in old(heap.live)
        && heap.live == old(heap.live)[slots[i].value := arg + ['\0']]
        && Filled(slots) == Filled(old(slots)) + {slots[i].value}
    {
      var copy := CopyStringView(arg);
      if copy.None? { return false; }
      FilledByOne(slots, i, copy.value);
      slots := slots[i := copy];
      ok := true;
    }

    /** The loop over the arguments; it stops at the first that cannot be copied. */
    method FillSlots(args: seq<string>) returns (ok: bool)
      requires Valid() && table.Some? && |slots| == |args| && forall k :: 0 <= k < |args| ==> slots[k].None?
      modifies this`slots, heap
      ensures Valid() && |slots| == |args|
      ensures old(heap.live.Keys) !! Filled(slots) && heap.live - Filled(slots) == old(heap.live)
      ensures ok <==> CopiesFrom(heap.grants, old(heap.asked), args)
      ensures ok ==> forall k :: 0 <= k < |args| ==> Holds(heap.live, slots[k], args[k])
    {
      for i := 0 to |args|
        invariant Valid() && |slots| == |args|
        invariant forall k :: i <= k < |args| ==> slots[k].None?
        invariant forall k :: 0 <= k < i ==> Holds(heap.live, slots[k], args[k])
        invariant old(heap.live.Keys) !! Filled(slots) && heap.live - Filled(slots) == old(heap.live)
        invariant heap.asked == old(heap.asked) + i
        invariant forall k :: 0 <= k < i ==> GetsBlock(heap.grants, old(heap.asked), args, k)
      {
        ok := FillSlot(i, args[i]);
        if !ok {
          assert !GetsBlock(heap.grants, old(heap.asked), args, i);
          return;
        }
      }
      ok := true;
    }

    /** Either every argument is copied, terminated, into its own new block, or nothing
        stays allocated. */
    method MakeMainArgs(args: seq<string>) returns (ok: bool)
      requires Valid() && table.None?
      modifies this, heap
      ensures Valid()
      ensures old(heap.live.Keys) !! Owned() && heap.live - Owned() == old(heap.live)
      ensures !ok ==> table.None?
      ensures ok ==> |slots| == |args| && forall i :: 0 <= i < |args| ==> Holds(heap.live, slots[i], args[i])
      ensures ok <==> Copies(heap.grants, old(heap.asked), args)
    {
      if |args| > INT_MAX { return false; }
      if |args| == 0 { return true; }
      table := heap.Malloc([]);
      if table.None? { return false; }
      slots := seq(|args|, _ => None);
      assert heap.live - {table.value} == old(heap.live);
      ok := FillSlots(args);
      assert heap.live - Owned() == heap.live - Filled(slots) - {table.value};
      if !ok { FreeArgv(); }
    }

    static lemma FilledByOne(slots: seq<Option<Block>>, i: nat, b: Block)
      requires i < |slots| && slots[i].None?
      ensures Filled(slots[i := Some(b)]) == Filled(slots) + {b}
    {
      var after := slots[i := Some(b)];
      assert after[i] == Some(b);
      forall s | s in slots && s.Some? ensures s in after {
        var k :| 0 <= k < |slots| && slots[k] == s;
        assert after[k] == s;
      }
    }
  }

  /** eg_cef_shim_execute_process: nothing it allocates outlives the call, on any path.
      `exitCode` is CEF's answer, `ran` whether CEF was called at all. */
  method ExecuteProcess(heap: Allocator, apiKnown: bool, args: seq<string>, appMade: bool, exitCode: int)
    returns (status: Status, ran: bool)
    requires heap.Valid()
    modifies heap
    ensures heap.Valid() && heap.live == old(heap.live)
    ensures ran <==> apiKnown && Copies(heap.grants, old(heap.asked), args) && appMade
    ensures ran ==> status == if exitCode >= 0 then Stopped else Running
    ensures !ran ==> status == if apiKnown && !Copies(heap.grants, old(heap.asked), args) then InvalidRequest else Failed
  {
    if !apiKnown { return Failed, false; }
    var storage := new Storage(heap);
    var ok := storage.MakeMainArgs(args);
    if !ok { return InvalidRequest, false; }
    if !appMade {
      storage.FreeArgv();
      return Failed, false;
    }
    status, ran := if exitCode >= 0 then Stopped else Running, true;
    storage.FreeArgv();
  }
}
