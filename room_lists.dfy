/**
 * The two lists the meeting room keeps in component state and rebuilds from
 * the previous value on every event: the teacher's list of users waiting for
 * admission, and the chat transcript.
 */
module RoomLists {
  import opened Strings

  /** No element occurs twice. */
  predicate NoDuplicates<T(==)>(s: seq<T>)
  {
    forall i, j :: 0 <= i < j < |s| ==> s[i] != s[j]
  }

  // ---------------------------------------------------------------- pending users

  /**
   * `[...new Set(s)]`: a JavaScript `Set` built from `s` keeps each element at
   * the position of its first insertion, so spreading it back yields the
   * elements of `s` in first-occurrence order.
   */
  function Dedup<T(==)>(s: seq<T>): (r: seq<T>)
    ensures |r| <= |s|
    ensures forall x :: x in r ==> x in s
    decreases |s|
  {
    if s == [] then []
    else
      var prev := Dedup(s[..|s| - 1]);
      if s[|s| - 1] in prev then prev else prev + [s[|s| - 1]]
  }

  /** Every element of `s` survives deduplication. */
  lemma {:induction false} DedupKeepsMembers<T>(s: seq<T>)
    ensures forall x :: x in s <==> x in Dedup(s)
    decreases |s|
  {
    if s != [] {
      var init := s[..|s| - 1];
      DedupKeepsMembers(init);
      assert s == init + [s[|s| - 1]];
      forall x | x in s ensures x in Dedup(s) {
        if x != s[|s| - 1] {
          assert x in init;
        }
      }
    }
  }

  /** The deduplicated list never repeats an element. */
  lemma {:induction false} DedupHasNoDuplicates<T>(s: seq<T>)
    ensures NoDuplicates(Dedup(s))
    decreases |s|
  {
    if s != [] {
      DedupHasNoDuplicates(s[..|s| - 1]);
    }
  }

  /** A list without repetitions is its own deduplication. */
  lemma {:induction false} DedupOfDistinct<T>(s: seq<T>)
    requires NoDuplicates(s)
    ensures Dedup(s) == s
    decreases |s|
  {
    if s != [] {
      var init := s[..|s| - 1];
      assert NoDuplicates(init);
      DedupOfDistinct(init);
      assert s[|s| - 1] !in init by {
        forall i | 0 <= i < |init| ensures init[i] != s[|s| - 1] {
          assert init[i] == s[i];
        }
      }
      assert s == init + [s[|s| - 1]];
    }
  }

  /** Deduplicating `s + [x]` is deduplicating `s` and then adding `x` if it is new. */
  lemma DedupSnoc<T>(s: seq<T>, x: T)
    ensures Dedup(s + [x]) == if x in Dedup(s) then Dedup(s) else Dedup(s) + [x]
  {
  }

  /**
   * The `JoinRequestReceived` update of the pending list,
   * `p => [...new Set([...p, id])]`.
   */
  function AddPending<T(==)>(p: seq<T>, id: T): (r: seq<T>)
    ensures NoDuplicates(r)
    ensures id in r
    ensures forall x :: x in p ==> x in r
    ensures forall x :: x in r ==> x in p || x == id
  {
    DedupHasNoDuplicates(p + [id]);
    DedupKeepsMembers(p + [id]);
    Dedup(p + [id])
  }

  /**
   * On a list without repetitions (the only kind the room ever holds) adding an
   * id keeps every earlier entry in place and appends the id only when it is new,
   * so a repeated request does not change the list.
   */
  lemma AddPendingAppendsIfAbsent<T>(p: seq<T>, id: T)
    requires NoDuplicates(p)
    ensures AddPending(p, id) == if id in p then p else p + [id]
  {
    DedupSnoc(p, id);
    DedupOfDistinct(p);
  }

  /** Adding the same id twice is the same as adding it once. */
  lemma AddPendingIdempotent<T>(p: seq<T>, id: T)
    ensures AddPending(AddPending(p, id), id) == AddPending(p, id)
  {
    var q := AddPending(p, id);
    AddPendingAppendsIfAbsent(q, id);
  }

  /** The pending list after the teacher receives the join requests `ids` in order. */
  function PendingAfter<T(==)>(p: seq<T>, ids: seq<T>): (r: seq<T>)
    decreases |ids|
  {
    if ids == [] then p else PendingAfter(AddPending(p, ids[0]), ids[1..])
  }

  /** Adding an id to a deduplicated history is deduplicating the extended history. */
  lemma AddPendingToDedup<T>(a: seq<T>, x: T)
    ensures AddPending(Dedup(a), x) == Dedup(a + [x])
  {
    DedupHasNoDuplicates(a);
    AddPendingAppendsIfAbsent(Dedup(a), x);
    DedupSnoc(a, x);
  }

  /** Receiving `ids` on top of `Dedup(a)` is the deduplication of the whole request history. */
  lemma {:induction false} PendingAfterIsDedup<T>(a: seq<T>, ids: seq<T>)
    ensures PendingAfter(Dedup(a), ids) == Dedup(a + ids)
    decreases |ids|
  {
    if ids == [] {
      assert a + ids == a;
    } else {
      var x, rest := ids[0], ids[1..];
      calc {
        PendingAfter(Dedup(a), ids);
        PendingAfter(AddPending(Dedup(a), x), rest);
        { AddPendingToDedup(a, x); }
        PendingAfter(Dedup(a + [x]), rest);
        { PendingAfterIsDedup(a + [x], rest); }
        Dedup(a + [x] + rest);
        { assert a + [x] + rest == a + ids; }
        Dedup(a + ids);
      }
    }
  }

  /**
   * Starting from the empty list, any sequence of join requests, with repeats,
   * leaves each requesting id in the list exactly once, in the order of its
   * first request, and never more entries than requests.
   */
  lemma RequestsListedOnce<T>(ids: seq<T>)
    ensures PendingAfter([], ids) == Dedup(ids)
    ensures NoDuplicates(PendingAfter([], ids))
    ensures forall x :: x in PendingAfter([], ids) <==> x in ids
    ensures |PendingAfter([], ids)| <= |ids|
  {
    assert Dedup<T>([]) == [];
    PendingAfterIsDedup([], ids);
    assert [] + ids == ids;
    DedupHasNoDuplicates(ids);
    DedupKeepsMembers(ids);
  }

  // ---------------------------------------------------------------- chat transcript

  /** The line displayed for a chat message `m` from user `u`: the template `${u}: ${m}`. */
  function FormatMessage(u: string, m: string): (line: string)
  {
    u + ": " + m
  }

  /** The part of a displayed line before its first colon. */
  function SenderOf(line: string): (u: string)
  {
    line[..IndexOf(line, ':')]
  }

  /** The part of a displayed line after its first ": " separator, or "" when there is none. */
  function TextOf(line: string): (m: string)
  {
    var k := IndexOf(line, ':');
    if k + 2 <= |line| then line[k + 2..] else ""
  }

  /**
   * A sender id without a colon (the room's ids are base-36 digits) can be read
   * back from the displayed line, and so can the message text, whatever it holds.
   */
  lemma {:induction false} FormatMessageSplits(u: string, m: string)
    requires ':' !in u
    ensures SenderOf(FormatMessage(u, m)) == u
    ensures TextOf(FormatMessage(u, m)) == m
  {
    var line := FormatMessage(u, m);
    assert line[..|u|] == u;
    assert line[|u|] == ':';
    assert line[|u| + 2..] == m;
  }

  /** The `ReceiveMessage` update of the transcript, `p => [...p, msg]`. */
  function AppendMessage(p: seq<string>, u: string, m: string): (r: seq<string>)
    ensures |r| == |p| + 1
    ensures r[..|p|] == p
    ensures r[|p|] == FormatMessage(u, m)
  {
    p + [FormatMessage(u, m)]
  }

  /** The transcript after receiving the messages `ms`, each a (sender, text) pair, in order. */
  function TranscriptAfter(p: seq<string>, ms: seq<(string, string)>): (r: seq<string>)
    decreases |ms|
  {
    if ms == [] then p else TranscriptAfter(AppendMessage(p, ms[0].0, ms[0].1), ms[1..])
  }

  /** Each received message formatted for display, in the order given. */
  function Formatted(ms: seq<(string, string)>): (r: seq<string>)
    ensures |r| == |ms|
  {
    seq(|ms|, i requires 0 <= i < |ms| => FormatMessage(ms[i].0, ms[i].1))
  }

  /**
   * Messages are shown in arrival order after everything shown before, one line
   * per message and none dropped or merged, duplicates included.
   */
  lemma {:induction false} TranscriptInArrivalOrder(p: seq<string>, ms: seq<(string, string)>)
    ensures TranscriptAfter(p, ms) == p + Formatted(ms)
    decreases |ms|
  {
    if ms == [] {
      assert p + Formatted(ms) == p;
    } else {
      var q := AppendMessage(p, ms[0].0, ms[0].1);
      TranscriptInArrivalOrder(q, ms[1..]);
      assert Formatted(ms) == [FormatMessage(ms[0].0, ms[0].1)] + Formatted(ms[1..]);
      assert q + Formatted(ms[1..]) == p + Formatted(ms);
    }
  }
}
