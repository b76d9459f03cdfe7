/**
 The reference-counted keyed lock that serialises message attempts and
 conversations. Everything between two awaits of a task is one step; a lock keeps
 its waiters in order, hands itself to the first of them by waking it, and a
 cancelled waiter passes the wake-up on when it next runs.
 */
module ConversationLock {
  import opened Wrappers

  type Task = nat
  type EntryId = nat

  // Message keys and conversation keys live in separate name spaces.
  datatype Key = MessageKey(id: nat) | ConversationKey(id: nat)

  datatype Waiter = Waiter(task: Task, woken: bool, cancelled: bool)
  {
    // It runs again at the next opportunity.
    predicate Ready() { woken || cancelled }
    // Its future was cancelled before anybody woke it.
    predicate Abandoned() { cancelled && !woken }
  }

  datatype Entry = Entry(locked: bool, waiters: seq<Waiter>, users: int)

  // The local variables of one task inside the lock's context manager.
  datatype Frame = Frame(entry: EntryId, acquired: bool)

  // `heap` holds every entry ever made, so a frame could still refer to one that has
  // left the table. `frames` maps each key to the tasks inside its context manager.
  datatype Locks = Locks(
    table: map<Key, EntryId>,
    heap: map<EntryId, Entry>,
    frames: map<Key, map<Task, Frame>>,
    next: EntryId)

  const INITIAL := Locks(map[], map[], map[], 0)

  function Frames(s: Locks, k: Key): map<Task, Frame> {
    if k in s.frames then s.frames[k] else map[]
  }

  // ---------------------------------------------------------------- one lock

  predicate AllAbandoned(waiters: seq<Waiter>) {
    forall i :: 0 <= i < |waiters| ==> waiters[i].Abandoned()
  }

  function WaiterAt(waiters: seq<Waiter>, task: Task): nat {
    if waiters == [] then 0 else if waiters[0].task == task then 0 else 1 + WaiterAt(waiters[1..], task)
  }

  function Remove(waiters: seq<Waiter>, i: nat): seq<Waiter>
    requires i < |waiters|
  {
    waiters[..i] + waiters[i + 1..]
  }

  function WakeFirst(entry: Entry): Entry {
    if entry.waiters == [] || entry.waiters[0].Ready() then entry
    else entry.(waiters := entry.waiters[0 := entry.waiters[0].(woken := true)])
  }

  predicate Free(entry: Entry) {
    !entry.locked && AllAbandoned(entry.waiters)
  }

  // Ask for the lock: taken at once when nobody holds it or still wants it.
  function Ask(entry: Entry, t: Task): Entry {
    if Free(entry) then entry.(locked := true)
    else entry.(waiters := entry.waiters + [Waiter(t, false, false)])
  }

  function MarkCancelled(entry: Entry, t: Task): Entry
    requires WaiterAt(entry.waiters, t) < |entry.waiters|
  {
    var i := WaiterAt(entry.waiters, t);
    entry.(waiters := entry.waiters[i := entry.waiters[i].(cancelled := true)])
  }

  function Withdraw(entry: Entry, t: Task): Entry
    requires WaiterAt(entry.waiters, t) < |entry.waiters|
  {
    var rest := entry.(waiters := Remove(entry.waiters, WaiterAt(entry.waiters, t)));
    if rest.locked then rest else WakeFirst(rest)
  }

  function Take(entry: Entry, t: Task): Entry
    requires WaiterAt(entry.waiters, t) < |entry.waiters|
  {
    Entry(true, Remove(entry.waiters, WaiterAt(entry.waiters, t)), entry.users)
  }

  function Unlock(entry: Entry): Entry {
    WakeFirst(entry.(locked := false))
  }

  // ---------------------------------------------------------------- steps

  // Find or create the entry, count the user, and take the lock or queue up.
  function Enter(s: Locks, t: Task, k: Key): Locks
    requires k in s.table ==> s.table[k] in s.heap
  {
    var id := if k in s.table then s.table[k] else s.next;
    var found := if k in s.table then s.heap[id] else Entry(false, [], 0);
    var counted := found.(users := found.users + 1);
    Locks(s.table[k := id], s.heap[id := Ask(counted, t)],
          s.frames[k := Frames(s, k)[t := Frame(id, Free(counted))]],
          if k in s.table then s.next else s.next + 1)
  }

  // The way out of the context manager, with what the lock has become by then.
  function Leave(s: Locks, t: Task, k: Key, entry: Entry): Locks
    requires t in Frames(s, k)
  {
    var id := Frames(s, k)[t].entry;
    var left := entry.(users := entry.users - 1);
    var table := if left.users == 0 && k in s.table && s.table[k] == id then s.table - {k} else s.table;
    Locks(table, s.heap[id := left], s.frames[k := Frames(s, k) - {t}], s.next)
  }

  predicate Inside(s: Locks, t: Task, k: Key) {
    t in Frames(s, k) && Frames(s, k)[t].entry in s.heap
  }

  function EntryOf(s: Locks, t: Task, k: Key): Entry
    requires Inside(s, t, k)
  {
    s.heap[Frames(s, k)[t].entry]
  }

  predicate Holds(s: Locks, t: Task, k: Key) {
    Inside(s, t, k) && Frames(s, k)[t].acquired
  }

  predicate Waiting(s: Locks, t: Task, k: Key) {
    && Inside(s, t, k) && !Frames(s, k)[t].acquired
    && WaiterAt(EntryOf(s, t, k).waiters, t) < |EntryOf(s, t, k).waiters|
  }

  predicate CanResume(s: Locks, t: Task, k: Key) {
    Waiting(s, t, k) && EntryOf(s, t, k).waiters[WaiterAt(EntryOf(s, t, k).waiters, t)].Ready()
  }

  function Cancel(s: Locks, t: Task, k: Key): Locks
    requires Waiting(s, t, k)
  {
    s.(heap := s.heap[Frames(s, k)[t].entry := MarkCancelled(EntryOf(s, t, k), t)])
  }

  // The awaiting task runs again: it takes the lock, or leaves if it was cancelled.
  function Resume(s: Locks, t: Task, k: Key): Locks
    requires CanResume(s, t, k)
  {
    var id := Frames(s, k)[t].entry;
    var entry := EntryOf(s, t, k);
    if entry.waiters[WaiterAt(entry.waiters, t)].cancelled then Leave(s, t, k, Withdraw(entry, t))
    else s.(heap := s.heap[id := Take(entry, t)], frames := s.frames[k := Frames(s, k)[t := Frame(id, true)]])
  }

  function Release(s: Locks, t: Task, k: Key): Locks
    requires Holds(s, t, k)
  {
    Leave(s, t, k, Unlock(EntryOf(s, t, k)))
  }

  datatype Step =
    | Entering(t: Task, k: Key)
    | Cancelling(t: Task, k: Key)
    | Resuming(t: Task, k: Key)
    | Releasing(t: Task, k: Key)

  // The order in which a turn uses the lock: message first, conversation inside it,
  // released from the inside out; a waiting task does nothing else.
  predicate Enabled(s: Locks, step: Step) {
    match step
    case Entering(t, k) =>
      && (k in s.table ==> s.table[k] in s.heap)
      && forall l :: l in s.frames && t in s.frames[l] ==>
           l.MessageKey? && k.ConversationKey? && s.frames[l][t].acquired
    case Cancelling(t, k) => Waiting(s, t, k)
    case Resuming(t, k) => CanResume(s, t, k)
    case Releasing(t, k) =>
      && Holds(s, t, k)
      && (k.MessageKey? ==> forall l :: l in s.frames && t in s.frames[l] ==> l == k)
  }

  function Next(s: Locks, step: Step): Locks
    requires Enabled(s, step)
  {
    match step
    case Entering(t, k) => Enter(s, t, k)
    case Cancelling(t, k) => Cancel(s, t, k)
    case Resuming(t, k) => Resume(s, t, k)
    case Releasing(t, k) => Release(s, t, k)
  }

  // ---------------------------------------------------------------- the service's table

  class LockTable {
    var table: map<Key, EntryId>
    var heap: map<EntryId, Entry>
    var frames: map<Key, map<Task, Frame>>
    var next: EntryId

    function Value(): Locks
      reads this
    {
      Locks(table, heap, frames, next)
    }

    constructor ()
      ensures Value() == INITIAL
    {
      table, heap, frames, next := map[], map[], map[], 0;
    }

    // From the call to the first await, or to the body if the lock was free.
    method EnterContext(t: Task, k: Key) returns (acquired: bool)
      requires k in table ==> table[k] in heap
      modifies this
      ensures Value() == Enter(old(Value()), t, k)
      ensures acquired == Frames(Value(), k)[t].acquired
    {
      var id, entry := next, Entry(false, [], 0);
      if k in table {
        id, entry := table[k], heap[table[k]];
      } else {
        table, next := table[k := id], next + 1;
      }
      entry := entry.(users := entry.users + 1);
      acquired := !entry.locked && AllAbandoned(entry.waiters);
      if acquired {
        entry := entry.(locked := true);
      } else {
        entry := entry.(waiters := entry.waiters + [Waiter(t, false, false)]);
      }
      heap := heap[id := entry];
      var inside: map<Task, Frame> := if k in frames then frames[k] else map[];
      inside := inside[t := Frame(id, acquired)];
      frames := frames[k := inside];
    }

    method CancelWaiter(t: Task, k: Key)
      requires Waiting(Value(), t, k)
      modifies this`heap
      ensures Value() == Cancel(old(Value()), t, k)
    {
      var id := frames[k][t].entry;
      var i := WaiterAt(heap[id].waiters, t);
      heap := heap[id := heap[id].(waiters := heap[id].waiters[i := heap[id].waiters[i].(cancelled := true)])];
    }

    // The continuation after the await.
    method ResumeWaiter(t: Task, k: Key) returns (acquired: bool)
      requires CanResume(Value(), t, k)
      modifies this
      ensures Value() == Resume(old(Value()), t, k)
    {
      var id := frames[k][t].entry;
      var i := WaiterAt(heap[id].waiters, t);
      acquired := !heap[id].waiters[i].cancelled;
      heap := heap[id := heap[id].(waiters := heap[id].waiters[..i] + heap[id].waiters[i + 1..])];
      if acquired {
        heap := heap[id := heap[id].(locked := true)];
        var inside: map<Task, Frame> := frames[k][t := Frame(id, true)];
        frames := frames[k := inside];
      } else {
        if !heap[id].locked {
          heap := heap[id := WakeFirst(heap[id])];
        }
        CloseContext(t, k);
      }
    }

    method ReleaseContext(t: Task, k: Key)
      requires Holds(Value(), t, k)
      modifies this
      ensures Value() == Release(old(Value()), t, k)
    {
      var id := frames[k][t].entry;
      heap := heap[id := WakeFirst(heap[id].(locked := false))];
      CloseContext(t, k);
    }

    method CloseContext(t: Task, k: Key)
      requires Inside(Value(), t, k)
      modifies this
      ensures Value() == Leave(old(Value()), t, k, EntryOf(old(Value()), t, k))
    {
      var id := frames[k][t].entry;
      heap := heap[id := heap[id].(users := heap[id].users - 1)];
      if heap[id].users == 0 {
        if k in table && table[k] == id {
          table := table - {k};
        }
      }
      var inside: map<Task, Frame> := frames[k] - {t};
      frames := frames[k := inside];
    }
  }

  // ---------------------------------------------------------------- the invariant

  predicate DistinctTasks(waiters: seq<Waiter>) {
    forall i, j :: 0 <= i < j < |waiters| ==> waiters[i].task != waiters[j].task
  }

  function Tasks(waiters: seq<Waiter>): set<Task> {
    set w | w in waiters :: w.task
  }

  // A free lock with waiters has its first one ready, and only the first is ever woken.
  predicate QueueOk(entry: Entry) {
    && DistinctTasks(entry.waiters)
    && (forall i :: 0 <= i < |entry.waiters| && entry.waiters[i].woken ==> i == 0 && !entry.locked)
    && (!entry.locked && entry.waiters != [] ==> entry.waiters[0].Ready())
  }

  function Holders(frames: map<Task, Frame>): set<Task> {
    set t | t in frames && frames[t].acquired
  }

  // The queue and the lock state agree with the tasks inside the context manager.
  predicate Agrees(entry: Entry, frames: map<Task, Frame>) {
    && QueueOk(entry)
    && Tasks(entry.waiters) == frames.Keys - Holders(frames)
    && (entry.locked <==> Holders(frames) != {})
    && (forall t, u :: t in Holders(frames) && u in Holders(frames) ==> t == u)
  }

  // The counter is the number of tasks inside, and they all refer to this entry.
  predicate EntryOk(entry: Entry, frames: map<Task, Frame>, id: EntryId) {
    && Agrees(entry, frames)
    && entry.users == |frames| > 0
    && forall t :: t in frames ==> frames[t].entry == id
  }

  predicate KeyOk(s: Locks, k: Key) {
    if k in s.table then s.table[k] in s.heap && EntryOk(s.heap[s.table[k]], Frames(s, k), s.table[k])
    else Frames(s, k) == map[]
  }

  predicate Nested(s: Locks) {
    forall k, l, t :: k in s.frames && l in s.frames && k != l && t in s.frames[k] && t in s.frames[l] ==>
      && k.MessageKey? != l.MessageKey?
      && (k.MessageKey? ==> s.frames[k][t].acquired)
  }

  ghost predicate Inv(s: Locks) {
    && (forall id :: id in s.heap ==> id < s.next)
    && (forall k :: KeyOk(s, k))
    && (forall k, l :: k in s.table && l in s.table && s.table[k] == s.table[l] ==> k == l)
    && Nested(s)
  }

  // ---------------------------------------------------------------- one lock, step by step

  lemma {:induction false} WaiterAtFound(waiters: seq<Waiter>, t: Task)
    ensures WaiterAt(waiters, t) <= |waiters|
    ensures WaiterAt(waiters, t) < |waiters| <==> t in Tasks(waiters)
    ensures WaiterAt(waiters, t) < |waiters| ==> waiters[WaiterAt(waiters, t)].task == t
  {
    if waiters != [] {
      WaiterAtFound(waiters[1..], t);
      assert Tasks(waiters) == Tasks(waiters[1..]) + {waiters[0].task};
    }
  }

  lemma AskAgrees(entry: Entry, frames: map<Task, Frame>, t: Task, id: EntryId)
    requires Agrees(entry, frames) && t !in frames
    requires frames == map[] ==> !entry.locked
    ensures Agrees(Ask(entry, t), frames[t := Frame(id, Free(entry))])
  {
    var after := frames[t := Frame(id, Free(entry))];
    if Free(entry) {
      assert Holders(after) == Holders(frames) + {t};
    } else {
      var queued := entry.waiters + [Waiter(t, false, false)];
      assert Holders(after) == Holders(frames);
      assert Tasks(queued) == Tasks(entry.waiters) + {t};
      forall i | 0 <= i < |entry.waiters| ensures entry.waiters[i].task != t {
        assert entry.waiters[i].task in Tasks(entry.waiters);
      }
    }
  }

  lemma CancelAgrees(entry: Entry, frames: map<Task, Frame>, t: Task)
    requires Agrees(entry, frames) && WaiterAt(entry.waiters, t) < |entry.waiters|
    ensures Agrees(MarkCancelled(entry, t), frames)
  {
    var i := WaiterAt(entry.waiters, t);
    SameTasks(entry.waiters, MarkCancelled(entry, t).waiters);
  }

  lemma SameTasks(a: seq<Waiter>, b: seq<Waiter>)
    requires |a| == |b| && forall i :: 0 <= i < |a| ==> a[i].task == b[i].task
    ensures Tasks(a) == Tasks(b)
  {
    forall t | t in Tasks(a) ensures t in Tasks(b) {
      var i :| 0 <= i < |a| && a[i].task == t;
      assert b[i] in b;
    }
    forall t | t in Tasks(b) ensures t in Tasks(a) {
      var i :| 0 <= i < |b| && b[i].task == t;
      assert a[i] in a;
    }
  }

  lemma RemoveTask(waiters: seq<Waiter>, i: nat)
    requires i < |waiters| && DistinctTasks(waiters)
    ensures DistinctTasks(Remove(waiters, i))
    ensures Tasks(Remove(waiters, i)) == Tasks(waiters) - {waiters[i].task}
  {
    var rest := Remove(waiters, i);
    forall t | t in Tasks(waiters) - {waiters[i].task} ensures t in Tasks(rest) {
      var j :| 0 <= j < |waiters| && waiters[j].task == t;
      assert rest[if j < i then j else j - 1] == waiters[j];
    }
    forall t | t in Tasks(rest) ensures t in Tasks(waiters) - {waiters[i].task} {
      var j :| 0 <= j < |rest| && rest[j].task == t;
      assert rest[j] == waiters[if j < i then j else j + 1];
    }
  }

  lemma WakeFirstQueue(entry: Entry)
    requires !entry.locked && DistinctTasks(entry.waiters)
    requires forall i :: 0 < i < |entry.waiters| ==> !entry.waiters[i].woken
    ensures QueueOk(WakeFirst(entry)) && Tasks(WakeFirst(entry).waiters) == Tasks(entry.waiters)
  {
    SameTasks(entry.waiters, WakeFirst(entry).waiters);
  }

  lemma WithdrawAgrees(entry: Entry, frames: map<Task, Frame>, t: Task)
    requires Agrees(entry, frames) && t in frames && !frames[t].acquired
    ensures WaiterAt(entry.waiters, t) < |entry.waiters|
    ensures Agrees(Withdraw(entry, t), frames - {t})
  {
    WaiterAtFound(entry.waiters, t);
    var i := WaiterAt(entry.waiters, t);
    RemoveTask(entry.waiters, i);
    var rest := entry.(waiters := Remove(entry.waiters, i));
    assert Holders(frames - {t}) == Holders(frames);
    if !rest.locked {
      WakeFirstQueue(rest);
    }
  }

  lemma TakeAgrees(entry: Entry, frames: map<Task, Frame>, t: Task, id: EntryId)
    requires Agrees(entry, frames) && t in frames && !frames[t].acquired
    requires WaiterAt(entry.waiters, t) < |entry.waiters|
    requires entry.waiters[WaiterAt(entry.waiters, t)].woken
    ensures Agrees(Take(entry, t), frames[t := Frame(id, true)])
  {
    WaiterAtFound(entry.waiters, t);
    RemoveTask(entry.waiters, 0);
    assert Holders(frames[t := Frame(id, true)]) == {t};
  }

  lemma UnlockAgrees(entry: Entry, frames: map<Task, Frame>, t: Task)
    requires Agrees(entry, frames) && t in Holders(frames)
    ensures Agrees(Unlock(entry), frames - {t})
  {
    assert Holders(frames - {t}) == Holders(frames) - {t} == {};
    WakeFirstQueue(entry.(locked := false));
  }

  // ---------------------------------------------------------------- the whole table

  lemma KeyUntouched(s: Locks, after: Locks, l: Key)
    requires KeyOk(s, l) && Frames(after, l) == Frames(s, l)
    requires l in s.table <==> l in after.table
    requires l in s.table ==> after.table[l] == s.table[l]
    requires l in s.table ==> s.table[l] in after.heap && after.heap[s.table[l]] == s.heap[s.table[l]]
    ensures KeyOk(after, l)
  {
  }

  lemma AskCounts(entry: Entry, frames: map<Task, Frame>, t: Task, id: EntryId)
    requires Agrees(entry, frames) && t !in frames && entry.users == |frames| + 1
    requires frames == map[] ==> !entry.locked
    requires forall u :: u in frames ==> frames[u].entry == id
    ensures EntryOk(Ask(entry, t), frames[t := Frame(id, Free(entry))], id)
  {
    AskAgrees(entry, frames, t, id);
    hide Agrees;
    assert frames[t := Frame(id, Free(entry))].Keys == frames.Keys + {t};
  }

  lemma EnterKey(s: Locks, t: Task, k: Key)
    requires KeyOk(s, k) && t !in Frames(s, k)
    ensures KeyOk(Enter(s, t, k), k)
  {
    var id := if k in s.table then s.table[k] else s.next;
    var found := if k in s.table then s.heap[id] else Entry(false, [], 0);
    AskCounts(found.(users := found.users + 1), Frames(s, k), t, id);
    hide EntryOk;
  }

  lemma EnterNested(s: Locks, t: Task, k: Key)
    requires Nested(s) && Enabled(s, Entering(t, k))
    ensures Nested(Enter(s, t, k))
  {
    var after := Enter(s, t, k);
    forall l, m, u | l in after.frames && m in after.frames && l != m && u in after.frames[l] && u in after.frames[m]
      ensures l.MessageKey? != m.MessageKey? && (l.MessageKey? ==> after.frames[l][u].acquired)
    {
      assert l != k ==> after.frames[l] == s.frames[l];
      assert m != k ==> after.frames[m] == s.frames[m];
      if u != t {
        assert u in s.frames[l] && u in s.frames[m];
      }
    }
  }

  lemma EnterOther(s: Locks, t: Task, k: Key, l: Key)
    requires Inv(s) && (k in s.table ==> s.table[k] in s.heap) && l != k
    ensures KeyOk(Enter(s, t, k), l)
    ensures l in s.table ==> s.table[l] != Enter(s, t, k).table[k]
  {
    assert KeyOk(s, l);
    assert l in s.table ==> s.table[l] in s.heap && s.table[l] < s.next;
    KeyUntouched(s, Enter(s, t, k), l);
  }

  lemma EnterKeepsInv(s: Locks, t: Task, k: Key)
    requires Inv(s) && Enabled(s, Entering(t, k))
    ensures Inv(Enter(s, t, k))
  {
    assert KeyOk(s, k);
    EnterKey(s, t, k);
    EnterNested(s, t, k);
    forall l | l != k
      ensures KeyOk(Enter(s, t, k), l)
      ensures l in s.table ==> s.table[l] != Enter(s, t, k).table[k]
    {
      EnterOther(s, t, k, l);
    }
  }

  lemma CancelKeepsInv(s: Locks, t: Task, k: Key)
    requires Inv(s) && Enabled(s, Cancelling(t, k))
    ensures Inv(Cancel(s, t, k))
  {
    var after := Cancel(s, t, k);
    assert KeyOk(s, k);
    CancelAgrees(s.heap[s.table[k]], Frames(s, k), t);
    forall l ensures KeyOk(after, l) {
      if l != k {
        assert KeyOk(s, l);
        KeyUntouched(s, after, l);
      }
    }
  }

  lemma LeaveKey(s: Locks, t: Task, k: Key, entry: Entry)
    requires KeyOk(s, k) && t in Frames(s, k)
    requires Agrees(entry, Frames(s, k) - {t}) && entry.users == |Frames(s, k)|
    ensures KeyOk(Leave(s, t, k, entry), k)
  {
    var after := Leave(s, t, k, entry);
    assert Frames(s, k).Keys == Frames(after, k).Keys + {t};
    assert |Frames(after, k)| == |Frames(s, k)| - 1;
    if |Frames(after, k)| == 0 {
      assert Frames(after, k) == map[];
    }
  }

  lemma LeaveNested(s: Locks, t: Task, k: Key, entry: Entry)
    requires Nested(s) && t in Frames(s, k)
    ensures Nested(Leave(s, t, k, entry))
  {
    var after := Leave(s, t, k, entry);
    forall l, u | l in after.frames && u in after.frames[l]
      ensures l in s.frames && u in s.frames[l] && after.frames[l][u] == s.frames[l][u]
    {
    }
  }

  lemma LeaveKeepsInv(s: Locks, t: Task, k: Key, entry: Entry)
    requires Inv(s) && t in Frames(s, k)
    requires Agrees(entry, Frames(s, k) - {t}) && entry.users == |Frames(s, k)|
    ensures Inv(Leave(s, t, k, entry))
  {
    var after := Leave(s, t, k, entry);
    assert KeyOk(s, k);
    LeaveKey(s, t, k, entry);
    LeaveNested(s, t, k, entry);
    forall l ensures KeyOk(after, l) {
      assert KeyOk(s, l);
      if l != k {
        KeyUntouched(s, after, l);
      }
    }
  }

  lemma TakeCounts(entry: Entry, frames: map<Task, Frame>, t: Task, id: EntryId)
    requires EntryOk(entry, frames, id) && t in frames && !frames[t].acquired
    requires WaiterAt(entry.waiters, t) < |entry.waiters|
    requires entry.waiters[WaiterAt(entry.waiters, t)].woken
    ensures EntryOk(Take(entry, t), frames[t := Frame(id, true)], id)
  {
    TakeAgrees(entry, frames, t, id);
    assert frames[t := Frame(id, true)].Keys == frames.Keys;
  }

  lemma TakeNested(s: Locks, t: Task, k: Key)
    requires Nested(s) && CanResume(s, t, k)
    requires var waiters := EntryOf(s, t, k).waiters; !waiters[WaiterAt(waiters, t)].cancelled
    ensures Nested(Resume(s, t, k))
  {
    var after := Resume(s, t, k);
    forall l, u | l in after.frames && u in after.frames[l]
      ensures l in s.frames && u in s.frames[l]
      ensures s.frames[l][u].acquired ==> after.frames[l][u].acquired
    {
    }
  }

  lemma TakeKeepsInv(s: Locks, t: Task, k: Key)
    requires Inv(s) && CanResume(s, t, k)
    requires var waiters := EntryOf(s, t, k).waiters; !waiters[WaiterAt(waiters, t)].cancelled
    ensures Inv(Resume(s, t, k))
  {
    var after := Resume(s, t, k);
    assert KeyOk(s, k);
    TakeCounts(s.heap[s.table[k]], Frames(s, k), t, s.table[k]);
    TakeNested(s, t, k);
    hide EntryOk, Nested;
    forall l ensures KeyOk(after, l) {
      if l != k {
        assert KeyOk(s, l);
        KeyUntouched(s, after, l);
      }
    }
  }

  lemma StepKeepsInv(s: Locks, step: Step)
    requires Inv(s) && Enabled(s, step)
    ensures Inv(Next(s, step))
  {
    assert KeyOk(s, step.k);
    match step
    case Entering(t, k) => EnterKeepsInv(s, t, k);
    case Cancelling(t, k) => CancelKeepsInv(s, t, k);
    case Resuming(t, k) =>
      var entry := EntryOf(s, t, k);
      if entry.waiters[WaiterAt(entry.waiters, t)].cancelled {
        WithdrawAgrees(entry, Frames(s, k), t);
        LeaveKeepsInv(s, t, k, Withdraw(entry, t));
      } else {
        TakeKeepsInv(s, t, k);
      }
    case Releasing(t, k) =>
      UnlockAgrees(EntryOf(s, t, k), Frames(s, k), t);
      LeaveKeepsInv(s, t, k, Unlock(EntryOf(s, t, k)));
  }

  // ---------------------------------------------------------------- every interleaving

  ghost predicate Interleaving(states: seq<Locks>, steps: seq<Step>) {
    && |states| == |steps| + 1
    && states[0] == INITIAL
    && forall i :: 0 <= i < |steps| ==> Enabled(states[i], steps[i]) && states[i + 1] == Next(states[i], steps[i])
  }

  lemma {:induction false} ReachableInv(states: seq<Locks>, steps: seq<Step>, n: nat)
    requires Interleaving(states, steps) && n < |states|
    ensures Inv(states[n])
  {
    if n > 0 {
      ReachableInv(states, steps, n - 1);
      StepKeepsInv(states[n - 1], steps[n - 1]);
    }
  }

  // Two tasks never hold one key together, and a key has an entry exactly while some
  // task is inside its context manager - although entries come and go.
  lemma MutualExclusion(states: seq<Locks>, steps: seq<Step>, n: nat)
    requires Interleaving(states, steps) && n < |states|
    ensures forall k, t, u :: Holds(states[n], t, k) && Holds(states[n], u, k) ==> t == u
    ensures forall k :: k in states[n].table <==> Frames(states[n], k) != map[]
    ensures forall k :: k in states[n].table ==>
              states[n].table[k] in states[n].heap
              && states[n].heap[states[n].table[k]].users == |Frames(states[n], k)|
  {
    ReachableInv(states, steps, n);
    var s := states[n];
    forall k, t, u | Holds(s, t, k) && Holds(s, u, k) ensures t == u {
      assert KeyOk(s, k);
      assert t in Holders(Frames(s, k)) && u in Holders(Frames(s, k));
    }
    forall k ensures k in s.table <==> Frames(s, k) != map[] {
      assert KeyOk(s, k);
    }
    forall k | k in s.table
      ensures s.table[k] in s.heap && s.heap[s.table[k]].users == |Frames(s, k)|
    {
      assert KeyOk(s, k);
    }
  }

  // A task that can run now: one holding the key and waiting for nothing else, or one
  // whose wait is over.
  predicate Runs(s: Locks, t: Task, k: Key) {
    || CanResume(s, t, k)
    || (Holds(s, t, k) && forall l :: l in s.frames && t in s.frames[l] ==> s.frames[l][t].acquired)
  }

  lemma KeyProgress(s: Locks, k: Key) returns (t: Task)
    requires Inv(s) && Frames(s, k) != map[]
    ensures CanResume(s, t, k) || Holds(s, t, k)
  {
    assert KeyOk(s, k);
    var entry := s.heap[s.table[k]];
    if entry.locked {
      t :| t in Holders(Frames(s, k));
    } else {
      var u :| u in Frames(s, k);
      assert u in Tasks(entry.waiters);
      t := entry.waiters[0].task;
      assert t in Tasks(entry.waiters);
      WaiterAtFound(entry.waiters, t);
    }
  }

  // No deadlock: while anybody is inside, somebody can run.
  lemma NoDeadlock(states: seq<Locks>, steps: seq<Step>, n: nat) returns (t: Task, k: Key)
    requires Interleaving(states, steps) && n < |states|
    requires exists l :: Frames(states[n], l) != map[]
    ensures Runs(states[n], t, k)
  {
    ReachableInv(states, steps, n);
    var s := states[n];
    if c: nat :| Frames(s, ConversationKey(c)) != map[] {
      k := ConversationKey(c);
      t := KeyProgress(s, k);
    } else {
      k :| Frames(s, k) != map[];
      t := KeyProgress(s, k);
    }
  }
}
