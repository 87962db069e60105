/** Bounded per-workspace lists, the state both the semantic cache and the agent
    memory keep: append at the end, drop the oldest when the list is too long. */
module BoundedLog {

  type Lists<E> = map<nat, seq<E>>

  function Entries<E>(lists: Lists<E>, workspaceId: nat): seq<E> {
    if workspaceId in lists then lists[workspaceId] else []
  }

  function Push<E>(entries: seq<E>, entry: E, maxEntries: int): seq<E> {
    if |entries| + 1 > maxEntries then (entries + [entry])[1..] else entries + [entry]
  }

  datatype LogOp<E> = Store(workspaceId: nat, entry: E) | Clear

  function Apply<E>(lists: Lists<E>, op: LogOp<E>, maxEntries: int): Lists<E> {
    match op
    case Store(workspaceId, entry) => lists[workspaceId := Push(Entries(lists, workspaceId), entry, maxEntries)]
    case Clear => map[]
  }

  function Run<E>(log: seq<LogOp<E>>, maxEntries: int): Lists<E> {
    if log == [] then map[] else Apply(Run(log[..|log| - 1], maxEntries), log[|log| - 1], maxEntries)
  }

  /** Everything ever stored for the workspace since the last clear. */
  function Stored<E>(log: seq<LogOp<E>>, workspaceId: nat): seq<E> {
    if log == [] then []
    else
      match log[|log| - 1]
      case Clear => []
      case Store(w, entry) => Stored(log[..|log| - 1], workspaceId) + (if w == workspaceId then [entry] else [])
  }

  /** The last `n` items, or all of them if there are fewer. */
  function Last<E>(xs: seq<E>, n: int): (r: seq<E>)
    ensures |r| <= |xs| && r == xs[|xs| - |r|..]
    ensures |r| == if n <= 0 then 0 else if |xs| < n then |xs| else n
  {
    if n <= 0 then [] else if |xs| < n then xs else xs[|xs| - n..]
  }

  lemma PushIsLast<E>(stored: seq<E>, entry: E, maxEntries: int)
    ensures Push(Last(stored, maxEntries), entry, maxEntries) == Last(stored + [entry], maxEntries)
  {
  }

  /** The bounded list of every workspace is the tail of its unbounded log. */
  lemma {:induction false} BoundedIsTailOfLog<E>(log: seq<LogOp<E>>, maxEntries: int, workspaceId: nat)
    ensures Entries(Run(log, maxEntries), workspaceId) == Last(Stored(log, workspaceId), maxEntries)
    decreases |log|
  {
    if log != [] {
      BoundedIsTailOfLog(log[..|log| - 1], maxEntries, workspaceId);
      match log[|log| - 1]
      case Clear =>
      case Store(w, entry) =>
        if w == workspaceId {
          PushIsLast(Stored(log[..|log| - 1], workspaceId), entry, maxEntries);
        } else {
          assert Stored(log, workspaceId) == Stored(log[..|log| - 1], workspaceId);
        }
    }
  }

  predicate NoClear<E(==)>(log: seq<LogOp<E>>) {
    forall k :: 0 <= k < |log| ==> log[k].Store?
  }

  lemma {:induction false} StoredConcat<E>(log: seq<LogOp<E>>, more: seq<LogOp<E>>, workspaceId: nat)
    requires NoClear(more)
    ensures Stored(log + more, workspaceId) == Stored(log, workspaceId) + Stored(more, workspaceId)
    decreases |more|
  {
    if more == [] {
      assert log + more == log;
      assert Stored(log, workspaceId) + [] == Stored(log, workspaceId);
    } else {
      var n := |more| - 1;
      StoredConcat(log, more[..n], workspaceId);
      assert (log + more)[..|log + more| - 1] == log + more[..n];
    }
  }
}
