/** The mixer's command queues (TCommandList) and the mixer operations that
    route commands to them (TExpAudioMixer).

    A queue holds command pointers, compared by identity. It is sorted by each
    command's resolved start date with a stable sort, and only when a flag says
    its order may have changed. The sort key is the parameter `date`: the date
    each command's start resolves to when the sort runs. */
module CommandLists {

  /** A `TCommandPtr`, by identity. */
  type CommandRef = nat

  // ---------------------------------------------------------------------------
  // The sort the queue uses, and its properties
  // ---------------------------------------------------------------------------

  predicate SortedByDate(s: seq<CommandRef>, date: CommandRef -> int)
  {
    forall i, j :: 0 <= i < j < |s| ==> date(s[i]) <= date(s[j])
  }

  /** Inserts `x` into a list, after every element whose date is not greater
      than its own. */
  function Insert(x: CommandRef, s: seq<CommandRef>, date: CommandRef -> int): seq<CommandRef>
  {
    if s == [] then [x]
    else if date(x) < date(s[0]) then [x] + s
    else [s[0]] + Insert(x, s[1..], date)
  }

  /** Inserting adds exactly one occurrence of `x` and keeps every other element. */
  lemma {:induction false} InsertPermutes(x: CommandRef, s: seq<CommandRef>, date: CommandRef -> int)
    ensures multiset(Insert(x, s, date)) == multiset(s) + multiset{x}
  {
    if s != [] && date(x) >= date(s[0]) {
      InsertPermutes(x, s[1..], date);
      assert s == [s[0]] + s[1..];
    }
  }

  /** A lower bound on the dates of `x` and of `s` bounds the dates of the
      list `Insert` builds. */
  lemma {:induction false} InsertBounded(x: CommandRef, s: seq<CommandRef>, date: CommandRef -> int, b: int)
    requires date(x) >= b && forall i :: 0 <= i < |s| ==> date(s[i]) >= b
    ensures forall j :: 0 <= j < |Insert(x, s, date)| ==> date(Insert(x, s, date)[j]) >= b
  {
    if s != [] && date(x) >= date(s[0]) {
      InsertBounded(x, s[1..], date, b);
      var r := Insert(x, s, date);
      assert r == [s[0]] + Insert(x, s[1..], date);
      forall j | 0 <= j < |r| ensures date(r[j]) >= b {
        if j > 0 {
          assert r[j] == Insert(x, s[1..], date)[j - 1];
        }
      }
    }
  }

  lemma {:induction false} InsertSorted(x: CommandRef, s: seq<CommandRef>, date: CommandRef -> int)
    requires SortedByDate(s, date)
    ensures SortedByDate(Insert(x, s, date), date)
  {
    if s != [] && date(x) >= date(s[0]) {
      var rest := Insert(x, s[1..], date);
      SortedTail(s, date);
      InsertSorted(x, s[1..], date);
      InsertBounded(x, s[1..], date, date(s[0]));
      var r := [s[0]] + rest;
      assert Insert(x, s, date) == r;
      forall i, j | 0 <= i < j < |r| ensures date(r[i]) <= date(r[j]) {
        assert r[j] == rest[j - 1];
        if i > 0 {
          assert r[i] == rest[i - 1];
        }
      }
    }
  }

  /** The queue's order after `sort(compare_command_date)`: ascending dates, and
      commands with equal dates in the order they were queued. */
  function SortByDate(s: seq<CommandRef>, date: CommandRef -> int): (r: seq<CommandRef>)
    ensures multiset(r) == multiset(s)
    ensures SortedByDate(r, date)
  {
    if s == [] then []
    else
      assert s == s[..|s| - 1] + [s[|s| - 1]];
      var sorted := SortByDate(s[..|s| - 1], date);
      InsertSorted(s[|s| - 1], sorted, date);
      InsertPermutes(s[|s| - 1], sorted, date);
      Insert(s[|s| - 1], sorted, date)
  }

  /** The commands of `s` whose date is `k`, in queue order. */
  function WithDate(s: seq<CommandRef>, date: CommandRef -> int, k: int): seq<CommandRef>
  {
    if s == [] then [] else (if date(s[0]) == k then [s[0]] else []) + WithDate(s[1..], date, k)
  }

  lemma {:induction false} WithDateConcat(a: seq<CommandRef>, b: seq<CommandRef>, date: CommandRef -> int, k: int)
    ensures WithDate(a + b, date, k) == WithDate(a, date, k) + WithDate(b, date, k)
  {
    if a != [] {
      var head := if date(a[0]) == k then [a[0]] else [];
      assert (a + b)[0] == a[0];
      assert (a + b)[1..] == a[1..] + b;
      WithDateConcat(a[1..], b, date, k);
      calc {
        WithDate(a + b, date, k);
        head + WithDate(a[1..] + b, date, k);
        head + (WithDate(a[1..], date, k) + WithDate(b, date, k));
        (head + WithDate(a[1..], date, k)) + WithDate(b, date, k);
        WithDate(a, date, k) + WithDate(b, date, k);
      }
    } else {
      assert a + b == b;
    }
  }

  /** In a sorted list no element is below the first one's date, so none has
      a date smaller than it. */
  lemma {:induction false} WithDateBelowFirst(s: seq<CommandRef>, date: CommandRef -> int, k: int)
    requires SortedByDate(s, date) && s != [] && k < date(s[0])
    ensures WithDate(s, date, k) == []
  {
    if |s| > 1 {
      SortedTail(s, date);
      assert date(s[0]) <= date(s[1]);
      WithDateBelowFirst(s[1..], date, k);
    }
  }

  lemma SortedTail(s: seq<CommandRef>, date: CommandRef -> int)
    requires SortedByDate(s, date) && s != []
    ensures SortedByDate(s[1..], date)
  {
    forall i, j | 0 <= i < j < |s[1..]| ensures date(s[1..][i]) <= date(s[1..][j]) {
      assert s[1..][i] == s[i + 1] && s[1..][j] == s[j + 1];
    }
  }

  /** Inserting into a sorted list puts `x` after every element with its date. */
  lemma {:induction false} InsertStable(x: CommandRef, s: seq<CommandRef>, date: CommandRef -> int, k: int)
    requires SortedByDate(s, date)
    ensures WithDate(Insert(x, s, date), date, k) == WithDate(s, date, k) + WithDate([x], date, k)
  {
    if s == [] {
      assert Insert(x, s, date) == [x];
      assert WithDate(s, date, k) == [];
    } else if date(x) < date(s[0]) {
      InsertBeforeStable(x, s, date, k);
    } else {
      var rest := Insert(x, s[1..], date);
      assert Insert(x, s, date) == [s[0]] + rest;
      SortedTail(s, date);
      InsertStable(x, s[1..], date, k);
      WithDateConcat([s[0]], rest, date, k);
      assert WithDate(Insert(x, s, date), date, k) == WithDate([s[0]], date, k) + WithDate(rest, date, k);
      assert [s[0]] + s[1..] == s;
      WithDateConcat([s[0]], s[1..], date, k);
      assert WithDate(s, date, k) == WithDate([s[0]], date, k) + WithDate(s[1..], date, k);
    }
  }

  lemma InsertBeforeStable(x: CommandRef, s: seq<CommandRef>, date: CommandRef -> int, k: int)
    requires SortedByDate(s, date) && s != [] && date(x) < date(s[0])
    ensures WithDate(Insert(x, s, date), date, k) == WithDate(s, date, k) + WithDate([x], date, k)
  {
    assert Insert(x, s, date) == [x] + s;
    WithDateConcat([x], s, date, k);
    assert WithDate(Insert(x, s, date), date, k) == WithDate([x], date, k) + WithDate(s, date, k);
    if date(x) == k {
      WithDateBelowFirst(s, date, k);
    } else {
      assert WithDate([x], date, k) == [];
    }
  }

  /** The sort is stable: for every date, the commands with that date appear in
      the sorted queue in exactly the order they had before. */
  lemma {:induction false} SortStable(s: seq<CommandRef>, date: CommandRef -> int, k: int)
    ensures WithDate(SortByDate(s, date), date, k) == WithDate(s, date, k)
  {
    if s != [] {
      var init, x := s[..|s| - 1], s[|s| - 1];
      assert s == init + [x];
      SortStable(init, date, k);
      InsertStable(x, SortByDate(init, date), date, k);
      WithDateConcat(init, [x], date, k);
    }
  }

  /** `list::remove(c)`: every occurrence of `c` is dropped. */
  function RemoveAll(s: seq<CommandRef>, c: CommandRef): (r: seq<CommandRef>)
    ensures c !in r
    ensures multiset(r) == multiset(s)[c := 0]
  {
    if s == [] then []
    else
      assert s == [s[0]] + s[1..];
      (if s[0] == c then [] else [s[0]]) + RemoveAll(s[1..], c)
  }

  /** Removal keeps the remaining commands in their order: it works piecewise
      on any split of the queue. */
  lemma {:induction false} RemoveAllConcat(a: seq<CommandRef>, b: seq<CommandRef>, c: CommandRef)
    ensures RemoveAll(a + b, c) == RemoveAll(a, c) + RemoveAll(b, c)
  {
    if a != [] {
      assert (a + b)[0] == a[0];
      assert (a + b)[1..] == a[1..] + b;
      RemoveAllConcat(a[1..], b, c);
      var head := if a[0] == c then [] else [a[0]];
      calc {
        RemoveAll(a + b, c);
        head + RemoveAll(a[1..] + b, c);
        head + (RemoveAll(a[1..], c) + RemoveAll(b, c));
        (head + RemoveAll(a[1..], c)) + RemoveAll(b, c);
        RemoveAll(a, c) + RemoveAll(b, c);
      }
    } else {
      assert a + b == b;
    }
  }

  // ---------------------------------------------------------------------------
  // The queue
  // ---------------------------------------------------------------------------

  /** `TCommandList`: a list of commands with a flag set whenever its order may
      have changed. */
  class CommandList {
    var commands: seq<CommandRef>
    var needSort: bool

    /** While the flag is clear, the queue is in date order. */
    ghost predicate InOrder(date: CommandRef -> int)
      reads this
    {
      !needSort ==> SortedByDate(commands, date)
    }

    constructor ()
      ensures commands == [] && !needSort
    {
      commands := [];
      needSort := false;
    }

    /** `AddCommand`: appends at the back and flags the queue. */
    method AddCommand(command: CommandRef)
      modifies this
      ensures commands == old(commands) + [command] && needSort
    {
      commands := commands + [command];
      needSort := true;
    }

    /** `RemoveCommand`: drops every occurrence and flags the queue. */
    method RemoveCommand(command: CommandRef)
      modifies this
      ensures commands == RemoveAll(old(commands), command) && needSort
    {
      commands := RemoveAll(commands, command);
      needSort := true;
    }

    /** `PossiblySort`: sorts and clears the flag only when it is set. A queue
        that was in order is in order afterwards. */
    method PossiblySort(date: CommandRef -> int)
      modifies this
      ensures old(needSort) ==> commands == SortByDate(old(commands), date) && !needSort
      ensures !old(needSort) ==> commands == old(commands) && !needSort
      ensures old(InOrder(date)) ==> SortedByDate(commands, date)
    {
      if needSort {
        commands := SortByDate(commands, date);
        needSort := false;
      }
    }

    /** `NeedSort`: flags the queue, for instance after dates changed. */
    method NeedSort()
      modifies this
      ensures needSort && commands == old(commands)
    {
      needSort := true;
    }

    /** `size()`. */
    method Size() returns (n: nat)
      ensures n == |commands|
    {
      n := |commands|;
    }
  }

  // ---------------------------------------------------------------------------
  // The mixer's two queues
  // ---------------------------------------------------------------------------

  /** The command-queue part of `TExpAudioMixer`: one queue for stream
      commands, one for control commands, and the current frame. */
  class ExpAudioMixer {
    const streamCommands: CommandList
    const controlCommands: CommandList
    var curFrame: int

    ghost predicate Valid()
      reads this
    {
      streamCommands != controlCommands
    }

    constructor ()
      ensures Valid() && fresh(streamCommands) && fresh(controlCommands) && curFrame == 0
      ensures streamCommands.commands == [] && !streamCommands.needSort
      ensures controlCommands.commands == [] && !controlCommands.needSort
    {
      streamCommands := new CommandList();
      controlCommands := new CommandList();
      curFrame := 0;
    }

    method AddStreamCommand(command: CommandRef)
      requires Valid()
      modifies streamCommands
      ensures streamCommands.commands == old(streamCommands.commands) + [command] && streamCommands.needSort
      ensures unchanged(controlCommands)
    {
      streamCommands.AddCommand(command);
    }

    method RemoveStreamCommand(command: CommandRef)
      requires Valid()
      modifies streamCommands
      ensures streamCommands.commands == RemoveAll(old(streamCommands.commands), command)
      ensures streamCommands.needSort && unchanged(controlCommands)
    {
      streamCommands.RemoveCommand(command);
    }

    method AddControlCommand(command: CommandRef)
      requires Valid()
      modifies controlCommands
      ensures controlCommands.commands == old(controlCommands.commands) + [command] && controlCommands.needSort
      ensures unchanged(streamCommands)
    {
      controlCommands.AddCommand(command);
    }

    method RemoveControlCommand(command: CommandRef)
      requires Valid()
      modifies controlCommands
      ensures controlCommands.commands == RemoveAll(old(controlCommands.commands), command)
      ensures controlCommands.needSort && unchanged(streamCommands)
    {
      controlCommands.RemoveCommand(command);
    }

    /** `GetCommandSize`: the number of queued stream commands. */
    method GetCommandSize() returns (n: int)
      ensures n == |streamCommands.commands|
    {
      n := streamCommands.Size();
    }

    /** `NeedSort`: flags both queues and leaves their contents alone. */
    method NeedSort()
      requires Valid()
      modifies streamCommands, controlCommands
      ensures streamCommands.needSort && controlCommands.needSort
      ensures streamCommands.commands == old(streamCommands.commands)
      ensures controlCommands.commands == old(controlCommands.commands)
    {
      controlCommands.NeedSort();
      streamCommands.NeedSort();
    }
  }
}
