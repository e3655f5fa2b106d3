/**
 The data-lake writer's bounded deduplication window
 (M5/app/datalake/writer.py). The shipped storage never suspends, so each send
 runs as a whole.
 */
module DataLake {
  import opened OrderedDicts

  datatype Window = Window(seen: set<string>, order: seq<string>)

  function Elements(s: seq<string>): set<string> {
    set x | x in s
  }

  /** Set and list hold the same distinct ids, at most `limit` of them. */
  ghost predicate Tidy(w: Window, limit: nat) {
    w.seen == Elements(w.order) && DistinctSeq(w.order) && |w.order| <= limit
  }

  lemma {:induction false} DistinctCount(s: seq<string>)
    requires DistinctSeq(s)
    ensures |Elements(s)| == |s|
  {
    if s != [] {
      DistinctCount(s[1..]);
      assert s[0] !in s[1..];
      assert Elements(s) == Elements(s[1..]) + {s[0]};
    }
  }

  /** The bookkeeping after a completed write. */
  function Recorded(w: Window, limit: nat, id: string): Window {
    var room := Room(w, limit);
    Window(room.seen + {id}, room.order + [id])
  }

  lemma DropOldest(w: Window, limit: nat)
    requires Tidy(w, limit) && w.order != []
    ensures Tidy(Window(w.seen - {w.order[0]}, w.order[1..]), limit)
  {
    assert w.order[0] !in w.order[1..];
    assert Elements(w.order) == Elements(w.order[1..]) + {w.order[0]};
  }

  lemma AppendNew(w: Window, limit: nat, id: string)
    requires Tidy(w, limit) && id !in w.order && |w.order| < limit
    ensures Tidy(Window(w.seen + {id}, w.order + [id]), limit)
  {
    assert Elements(w.order + [id]) == Elements(w.order) + {id};
  }

  function Room(w: Window, limit: nat): Window {
    if |w.seen| >= limit && w.order != [] then Window(w.seen - {w.order[0]}, w.order[1..]) else w
  }

  lemma RoomIsTidy(w: Window, limit: nat)
    requires Tidy(w, limit) && limit >= 1
    ensures Tidy(Room(w, limit), limit) && |Room(w, limit).order| < limit
    ensures Room(w, limit).order == if |w.order| == limit then w.order[1..] else w.order
  {
    DistinctCount(w.order);
    if w.order != [] {
      DropOldest(w, limit);
    }
  }

  /** A write keeps the window tidy unless the event is still in it once there is room. */
  lemma RecordedIsTidy(w: Window, limit: nat, id: string)
    requires Tidy(w, limit) && limit >= 1
    ensures Recorded(w, limit, id).order == (if |w.order| == limit then w.order[1..] else w.order) + [id]
    ensures id !in Room(w, limit).order ==> Tidy(Recorded(w, limit, id), limit)
  {
    RoomIsTidy(w, limit);
    if id !in Room(w, limit).order {
      AppendNew(Room(w, limit), limit, id);
    }
  }

  /** What a send does: nothing, because it is unhealthy or the storage raises; nothing new; or a write. */
  datatype Outcome = Raised | Skipped | Written

  class DataLakeWriter {
    const limit: nat
    var seen: set<string>
    var order: seq<string>

    ghost predicate Valid()
      reads this
    {
      limit >= 1 && Tidy(Now(), limit)
    }

    function Now(): Window
      reads this
    {
      Window(seen, order)
    }

    constructor (limit: nat)
      requires limit >= 1
      ensures Valid() && this.limit == limit && order == []
    {
      this.limit := limit;
      seen, order := {}, [];
    }

    /** `storageFails`: the object store or the catalog commit raises. */
    method Send(id: string, healthy: bool, storageFails: bool) returns (r: Outcome)
      requires Valid()
      modifies this
      ensures Valid()
      ensures r == if !healthy then Raised else if id in old(order) then Skipped else if storageFails
              then Raised else Written
      ensures order == if r != Written then old(order)
                       else (if |old(order)| == limit then old(order)[1..] else old(order)) + [id]
      ensures forall written: seq<string> ::
                Sent(Lake(old(Now()), written), limit, Call(id, healthy, storageFails)) ==
                Lake(Now(), if r == Written then written + [id] else written)
    {
      if !healthy {
        return Raised;
      }
      if id in seen {
        return Skipped;
      }
      if storageFails {
        return Raised;
      }
      ghost var w := Window(seen, order);
      RecordedIsTidy(w, limit, id);
      DistinctCount(order);
      if |seen| >= limit {
        var oldest := order[0];
        order := order[1..];
        seen := seen - {oldest};
      }
      seen := seen + {id};
      order := order + [id];
      assert Window(seen, order) == Recorded(w, limit, id);
      return Written;
    }
  }

  /** The latest `limit` writes, or all of them. */
  function Latest(written: seq<string>, limit: nat): seq<string> {
    if |written| <= limit then written else written[|written| - limit..]
  }

  /** Within the last `limit` writes nothing repeats. */
  ghost predicate Spaced(written: seq<string>, limit: nat) {
    forall i, j :: 0 <= i < j < |written| && j - i <= limit ==> written[i] != written[j]
  }

  /** The window is the latest writes, and those are spaced. */
  ghost predicate WindowInv(w: Window, written: seq<string>, limit: nat) {
    Tidy(w, limit) && w.order == Latest(written, limit) && Spaced(written, limit)
  }

  lemma LatestSnoc(written: seq<string>, limit: nat, id: string)
    requires limit >= 1
    ensures Latest(written + [id], limit) ==
            (if |Latest(written, limit)| == limit then Latest(written, limit)[1..] else Latest(written, limit)) + [id]
  {
  }

  lemma SpacedSnoc(written: seq<string>, limit: nat, id: string)
    requires Spaced(written, limit) && id !in Latest(written, limit)
    ensures Spaced(written + [id], limit)
  {
    forall i | 0 <= i < |written| && |written| - i <= limit ensures written[i] != id {
      var base := if |written| <= limit then 0 else |written| - limit;
      assert written[i] == Latest(written, limit)[i - base];
    }
  }

  lemma RoomHoldsLess(w: Window, limit: nat, id: string)
    requires id !in w.order
    ensures id !in Room(w, limit).order
  {
  }

  lemma WriteKeepsWindow(w: Window, written: seq<string>, limit: nat, id: string)
    requires limit >= 1 && WindowInv(w, written, limit) && id !in w.order
    ensures WindowInv(Recorded(w, limit, id), written + [id], limit)
  {
    RoomHoldsLess(w, limit, id);
    RecordedIsTidy(w, limit, id);
    LatestSnoc(written, limit, id);
    SpacedSnoc(written, limit, id);
  }

  lemma FarApart(written: seq<string>, limit: nat, i: nat, j: nat)
    requires limit >= 1 && Spaced(written, limit) && i < j < |written| && written[i] == written[j]
    ensures j - i > limit
    ensures var between := written[j - limit..j];
            DistinctSeq(between) && written[i] !in between && |Elements(between)| == limit
  {
    var between := written[j - limit..j];
    forall a, b | 0 <= a < b < |between| ensures between[a] != between[b] {
      assert written[j - limit + a] != written[j - limit + b];
    }
    forall a | 0 <= a < |between| ensures between[a] != written[j] {
      assert written[j - limit + a] != written[j];
    }
    DistinctCount(between);
  }

  // ---- runs of whole sends ----

  /** One call of `send`. */
  datatype Call = Call(id: string, healthy: bool, storageFails: bool)

  /** The window and everything written so far. */
  datatype Lake = Lake(w: Window, written: seq<string>)

  const EMPTY: Lake := Lake(Window({}, []), [])

  function Sent(s: Lake, limit: nat, c: Call): Lake {
    if !c.healthy || c.id in s.w.seen || c.storageFails then s
    else Lake(Recorded(s.w, limit, c.id), s.written + [c.id])
  }

  /** The lake before call `n`. */
  function At(calls: seq<Call>, limit: nat, n: nat): Lake
    requires n <= |calls|
  {
    if n == 0 then EMPTY else Sent(At(calls, limit, n - 1), limit, calls[n - 1])
  }

  lemma EmptyIsSpaced(limit: nat)
    ensures WindowInv(EMPTY.w, EMPTY.written, limit)
  {
  }

  lemma SendKeepsWindow(s: Lake, limit: nat, c: Call)
    requires limit >= 1 && WindowInv(s.w, s.written, limit)
    ensures WindowInv(Sent(s, limit, c).w, Sent(s, limit, c).written, limit)
  {
    if c.id !in s.w.seen {
      WriteKeepsWindow(s.w, s.written, limit, c.id);
    }
  }

  /** In every run of sends the window holds exactly the last `limit` writes, all different. */
  lemma {:induction false} WindowIsLatest(calls: seq<Call>, limit: nat, n: nat)
    requires limit >= 1 && n <= |calls|
    ensures WindowInv(At(calls, limit, n).w, At(calls, limit, n).written, limit)
  {
    if n == 0 {
      EmptyIsSpaced(limit);
    } else {
      WindowIsLatest(calls, limit, n - 1);
      SendKeepsWindow(At(calls, limit, n - 1), limit, calls[n - 1]);
    }
  }

  /** A call writes its event exactly if all goes well and the event is not among the last `limit` writes. */
  lemma WritesExactly(calls: seq<Call>, limit: nat, n: nat)
    requires limit >= 1 && n < |calls|
    ensures var c, written := calls[n], At(calls, limit, n).written;
            At(calls, limit, n + 1).written ==
            if c.healthy && !c.storageFails
               && forall k :: 0 <= k < |written| && |written| - limit <= k ==> written[k] != c.id
            then written + [c.id] else written
  {
    WindowIsLatest(calls, limit, n);
    var written := At(calls, limit, n).written;
    var latest := Latest(written, limit);
    var base := |written| - |latest|;
    assert forall k :: base <= k < |written| ==> written[k] == latest[k - base];
    assert calls[n].id in At(calls, limit, n).w.seen <==> calls[n].id in latest;
  }

  /** Between two writes of one event, a full window of distinct other events was written. */
  lemma RewritesAreFarApart(calls: seq<Call>, limit: nat, n: nat, i: nat, j: nat)
    requires limit >= 1 && n <= |calls|
    requires i < j < |At(calls, limit, n).written|
    requires At(calls, limit, n).written[i] == At(calls, limit, n).written[j]
    ensures j - i > limit
    ensures var between := At(calls, limit, n).written[j - limit..j];
            DistinctSeq(between) && At(calls, limit, n).written[i] !in between && |Elements(between)| == limit
  {
    WindowIsLatest(calls, limit, n);
    FarApart(At(calls, limit, n).written, limit, i, j);
  }

  /** A completed write keeps set and list consistent exactly when the event is not still in the list. */
  lemma TidyExactly(w: Window, limit: nat, id: string)
    requires limit >= 1 && Tidy(w, limit)
    ensures Tidy(Recorded(w, limit, id), limit) <==> id !in Room(w, limit).order
  {
    RecordedIsTidy(w, limit, id);
    RoomIsTidy(w, limit);
    var kept := Room(w, limit).order;
    if id in kept {
      var i :| 0 <= i < |kept| && kept[i] == id;
      assert Recorded(w, limit, id).order[i] == Recorded(w, limit, id).order[|kept|];
    }
  }
}
