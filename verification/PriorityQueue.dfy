/** The keyed binary heap. The root sits at index 0, and index i has its parent at i / 2
    and its children at 2i and 2i + 1, so index 0 has the single proper child 1. */
module PriorityQueues {
  import opened Base

  datatype Entry<K> = Entry(key: K, priority: Num)

  /** Every entry is no smaller than its parent. */
  ghost predicate HeapOrdered<K>(arr: seq<Entry<K>>) {
    forall i :: 1 <= i < |arr| ==> !arr[i].priority.Less(arr[i / 2].priority)
  }

  /** `HeapOrdered` except between index `bad` and its parent. */
  ghost predicate OrderedAboveAllBut<K>(arr: seq<Entry<K>>, bad: nat) {
    && (forall i :: 1 <= i < |arr| && i != bad ==> !arr[i].priority.Less(arr[i / 2].priority))
    && (forall i :: 1 <= i < |arr| && i / 2 == bad && i != bad ==> !arr[i].priority.Less(arr[bad / 2].priority))
  }

  /** `HeapOrdered` except between index `bad` and its children. */
  ghost predicate OrderedBelowAllBut<K>(arr: seq<Entry<K>>, bad: nat) {
    && (forall i :: 1 <= i < |arr| && i / 2 != bad ==> !arr[i].priority.Less(arr[i / 2].priority))
    && (forall i :: 1 <= i < |arr| && i / 2 == bad && 0 < bad ==> !arr[i].priority.Less(arr[bad / 2].priority))
  }

  /** The index map is the inverse of the array. */
  ghost predicate Indexed<K>(arr: seq<Entry<K>>, keyIndices: map<K, nat>) {
    && (forall i :: 0 <= i < |arr| ==> arr[i].key in keyIndices && keyIndices[arr[i].key] == i)
    && (forall k :: k in keyIndices ==> keyIndices[k] < |arr| && arr[keyIndices[k]].key == k)
  }

  ghost function Table<K>(arr: seq<Entry<K>>, keyIndices: map<K, nat>): map<K, Num>
    requires Indexed(arr, keyIndices)
  {
    map k | k in keyIndices :: arr[keyIndices[k]].priority
  }

  /** The root of a heap is a minimum. */
  lemma {:induction false} RootIsLeast<K>(arr: seq<Entry<K>>, i: nat)
    requires HeapOrdered(arr) && i < |arr|
    ensures !arr[i].priority.Less(arr[0].priority)
    decreases i
  {
    if i > 0 {
      RootIsLeast(arr, i / 2);
    }
  }

  ghost function Swapped<K>(arr: seq<Entry<K>>, i: nat, j: nat): seq<Entry<K>>
    requires i < |arr| && j < |arr|
  {
    arr[i := arr[j]][j := arr[i]]
  }

  /** Swapping an entry with its larger parent moves the disorder up to the parent. */
  lemma SwapUp<K>(arr: seq<Entry<K>>, i: nat)
    requires 0 < i < |arr| && OrderedAboveAllBut(arr, i) && !arr[i / 2].priority.Less(arr[i].priority)
    ensures OrderedAboveAllBut(Swapped(arr, i, i / 2), i / 2)
  {
    var s := Swapped(arr, i, i / 2);
    forall j | 1 <= j < |s| && j != i / 2 ensures !s[j].priority.Less(s[j / 2].priority) {
      assert i != j ==> !arr[j].priority.Less(arr[j / 2].priority);
    }
    forall j | 1 <= j < |s| && j / 2 == i / 2 && j != i / 2 && 0 < i / 2
      ensures !s[j].priority.Less(s[i / 2 / 2].priority)
    {
      assert !arr[i / 2].priority.Less(arr[i / 2 / 2].priority);
      assert i != j ==> !arr[j].priority.Less(arr[j / 2].priority);
    }
  }

  /** Swapping an entry with its least child moves the disorder down to that child. */
  lemma SwapDown<K>(arr: seq<Entry<K>>, i: nat, c: nat)
    requires i < c < |arr| && c / 2 == i && OrderedBelowAllBut(arr, i)
    requires arr[c].priority.Less(arr[i].priority)
    requires forall j :: i < j < |arr| && j / 2 == i ==> !arr[j].priority.Less(arr[c].priority)
    ensures OrderedBelowAllBut(Swapped(arr, i, c), c)
  {
    var s := Swapped(arr, i, c);
    forall j | 1 <= j < |s| && j / 2 != c ensures !s[j].priority.Less(s[j / 2].priority) {
      if j == i {
        assert !arr[c].priority.Less(arr[i / 2].priority);
      } else if j / 2 != i {
        assert !arr[j].priority.Less(arr[j / 2].priority);
      }
    }
    forall j | 1 <= j < |s| && j / 2 == c ensures !s[j].priority.Less(s[c / 2].priority) {
      assert !arr[j].priority.Less(arr[j / 2].priority);
    }
  }

  /** Below an entry with no smaller child nothing is out of order. */
  lemma NothingBelow<K>(arr: seq<Entry<K>>, i: nat)
    requires OrderedBelowAllBut(arr, i)
    requires forall j :: 1 <= j < |arr| && j / 2 == i ==> !arr[j].priority.Less(arr[i].priority)
    ensures HeapOrdered(arr)
  {
  }

  class PriorityQueue<K(==)> {
    var arr: seq<Entry<K>>
    var keyIndices: map<K, nat>

    ghost predicate Valid()
      reads this
    {
      Indexed(arr, keyIndices) && HeapOrdered(arr)
    }

    /** The queue as a table from keys to priorities. */
    ghost function Contents(): map<K, Num>
      requires Indexed(arr, keyIndices)
      reads this
    {
      Table(arr, keyIndices)
    }

    constructor ()
      ensures Valid() && Contents() == map[]
    {
      arr, keyIndices := [], map[];
    }

    method Size() returns (n: nat)
      requires Valid()
      ensures n == |Contents()|
    {
      n := |arr|;
      ghost var a := arr;
      ghost var keys := seq(|a|, i requires 0 <= i < |a| => a[i].key);
      forall k | k in keyIndices ensures k in keys {
        assert keys[keyIndices[k]] == k;
      }
      ListsSize(keys, keyIndices.Keys);
      assert Contents().Keys == keyIndices.Keys;
    }

    method Has(key: K) returns (b: bool)
      requires Valid()
      ensures b == (key in Contents())
    {
      b := key in keyIndices;
    }

    method Priority(key: K) returns (p: Option<Num>)
      requires Valid()
      ensures p == if key in Contents() then Some(Contents()[key]) else None
    {
      if key in keyIndices {
        p := Some(arr[keyIndices[key]].priority);
      } else {
        p := None;
      }
    }

    method Min() returns (r: Result<K, string>)
      requires Valid()
      ensures r.Err? <==> Contents() == map[]
      ensures r.Ok? ==> r.value in Contents() &&
                        forall k :: k in Contents() ==> !Contents()[k].Less(Contents()[r.value])
    {
      if |arr| == 0 {
        return Err("Queue underflow");
      }
      r := Ok(arr[0].key);
      forall k | k in Contents() ensures !Contents()[k].Less(Contents()[arr[0].key]) {
        RootIsLeast(arr, keyIndices[k]);
      }
    }

    method Add(key: K, priority: Num) returns (added: bool)
      requires Valid()
      modifies this
      ensures Valid()
      ensures added == (key !in old(Contents()))
      ensures Contents() == if added then old(Contents())[key := priority] else old(Contents())
    {
      if key !in keyIndices {
        var index := |arr|;
        keyIndices := keyIndices[key := index];
        arr := arr + [Entry(key, priority)];
        DecreaseFrom(index);
        return true;
      }
      return false;
    }

    /** The caller has checked that the queue is not empty: on an empty queue the code throws
        from inside the swap. */
    method RemoveMin() returns (key: K)
      requires Valid() && Contents() != map[]
      modifies this
      ensures Valid()
      ensures key in old(Contents())
      ensures forall k :: k in old(Contents()) ==> !old(Contents())[k].Less(old(Contents())[key])
      ensures Contents() == old(Contents()) - {key}
    {
      assert |arr| > 0;
      forall k | k in Contents() ensures !Contents()[k].Less(Contents()[arr[0].key]) {
        RootIsLeast(arr, keyIndices[k]);
      }
      Swap(0, |arr| - 1);
      key := Pop();
      Heapify(0);
    }

    /** Drops the last entry of the array. */
    method Pop() returns (key: K)
      requires Indexed(arr, keyIndices) && |arr| > 0
      modifies this
      ensures arr == old(arr)[..|old(arr)| - 1] && key == old(arr)[|old(arr)| - 1].key
      ensures Indexed(arr, keyIndices) && Contents() == old(Contents()) - {key}
    {
      var min := arr[|arr| - 1];
      arr := arr[..|arr| - 1];
      keyIndices := keyIndices - {min.key};
      key := min.key;
    }

    method Decrease(key: K, priority: Num) returns (r: Result<(), string>)
      requires Valid()
      modifies this
      ensures Valid()
      ensures r.Ok? <==> key in old(Contents()) && !old(Contents())[key].Less(priority)
      ensures Contents() == if r.Ok? then old(Contents())[key := priority] else old(Contents())
    {
      if key !in keyIndices {
        return Err("key is not in the queue");
      }
      var index := keyIndices[key];
      if arr[index].priority.Less(priority) {
        return Err("New priority is greater than current priority");
      }
      arr := arr[index := Entry(key, priority)];
      DecreaseFrom(index);
      return Ok(());
    }

    /** Sifts the entry at i down. */
    method Heapify(i: nat)
      requires Indexed(arr, keyIndices) && OrderedBelowAllBut(arr, i)
      modifies this
      ensures Valid() && Contents() == old(Contents())
      decreases |arr| - i
    {
      var l := 2 * i;
      var r := l + 1;
      var largest := i;
      if l < |arr| {
        largest := if arr[l].priority.Less(arr[largest].priority) then l else largest;
        if r < |arr| {
          largest := if arr[r].priority.Less(arr[largest].priority) then r else largest;
        }
        assert forall j :: 1 <= j < |arr| && j / 2 == i ==> j == l || j == r;
        if largest != i {
          SwapDown(arr, i, largest);
          Swap(i, largest);
          Heapify(largest);
          return;
        }
      }
      NothingBelow(arr, i);
    }

    /** Sifts the entry at `start` up. */
    method DecreaseFrom(start: nat)
      requires Indexed(arr, keyIndices) && start < |arr| && OrderedAboveAllBut(arr, start)
      modifies this
      ensures Valid() && Contents() == old(Contents())
    {
      var priority := arr[start].priority;
      var index := start;
      while index != 0
        invariant index < |arr| && arr[index].priority == priority
        invariant Indexed(arr, keyIndices) && OrderedAboveAllBut(arr, index)
        invariant Contents() == old(Contents())
      {
        var parent := index / 2;
        if arr[parent].priority.Less(priority) {
          break;
        }
        SwapUp(arr, index);
        Swap(index, parent);
        index := parent;
      }
    }

    method Swap(i: nat, j: nat)
      requires Indexed(arr, keyIndices) && i < |arr| && j < |arr|
      modifies this
      ensures arr == Swapped(old(arr), i, j)
      ensures Indexed(arr, keyIndices) && Contents() == old(Contents())
    {
      var origArrI := arr[i];
      var origArrJ := arr[j];
      arr := arr[i := origArrJ][j := origArrI];
      keyIndices := keyIndices[origArrJ.key := i];
      keyIndices := keyIndices[origArrI.key := j];
    }
  }
}
