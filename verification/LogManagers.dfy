/**
 LogManager of internal/core/log_manager.go as an object: start and stop, the subscriber
 slice edited in place, one fan-out, and the filtered reads. How its goroutines interleave
 is the subject of LogPipeline, which shares Control with this module.
 */
module LogManagers {
  import opened RingBuffers

  datatype LogEntry = LogEntry(timestamp: string, process: string, pid: string, level: string, message: string,
                               raw: string)

  // ---------------------------------------------------------------- the fields under lm.mu

  /**
   The locked fields, with a subscriber channel named by C. `cancelled` has one flag for
   each context Start has made; `cancel` refers to the last of them.
   */
  datatype Control<C> = Control(running: bool, udid: string, cancelled: seq<bool>, subscribers: seq<C>)
  {
    function Started(device: string): Control<C> {
      if running then this else this.(running := true, udid := device, cancelled := cancelled + [false])
    }

    function Stopped(): Control<C> {
      if running && cancelled != [] then this.(running := false, cancelled := cancelled[|cancelled| - 1 := true])
      else this
    }

    /** Exactly the newest context is live while running, none otherwise. */
    ghost predicate Consistent() {
      && (running ==> cancelled != [])
      && forall e | 0 <= e < |cancelled| :: !cancelled[e] <==> running && e == |cancelled| - 1
    }
  }

  function IndexOf<C(==)>(s: seq<C>, c: C): (i: nat)
    ensures i <= |s| && c !in s[..i] && (i < |s| ==> s[i] == c)
    ensures c in s <==> i < |s|
  {
    if s == [] || s[0] == c then 0 else 1 + IndexOf(s[1..], c)
  }

  /** s without its first c. */
  function Without<C(==)>(s: seq<C>, c: C): seq<C> {
    var i := IndexOf(s, c);
    if i < |s| then s[..i] + s[i + 1..] else s
  }

  ghost predicate Distinct<C>(s: seq<C>) {
    forall i, j | 0 <= i < j < |s| :: s[i] != s[j]
  }

  /** Removing c from a slice without repetitions removes just c and keeps the others in order. */
  lemma WithoutIsExact<C>(s: seq<C>, c: C)
    requires Distinct(s)
    ensures Distinct(Without(s, c)) && c !in Without(s, c)
    ensures forall d :: d in Without(s, c) <==> d in s && d != c
    ensures c in s ==> |Without(s, c)| == |s| - 1
    ensures forall k | 0 <= k < |Without(s, c)| ::
              Without(s, c)[k] == s[if k < IndexOf(s, c) then k else k + 1]
  {
    var i := IndexOf(s, c);
    var w := Without(s, c);
    forall d | d in s && d != c
      ensures d in w
    {
      var k :| 0 <= k < |s| && s[k] == d;
      assert w[if k < i then k else k - 1] == d;
    }
  }

  lemma WithoutKeeps<C>(s: seq<C>, c: C)
    requires Distinct(s)
    ensures Distinct(Without(s, c)) && forall d | d in Without(s, c) :: d in s && d != c
  {
    WithoutIsExact(s, c);
  }

  // ---------------------------------------------------------------- channels and filters

  const SUBSCRIBER_SLOTS := 100

  /** A subscriber's buffered channel. */
  class Chan {
    var queue: seq<LogEntry>
    var closed: bool

    constructor ()
      ensures queue == [] && !closed
    {
      queue, closed := [], false;
    }

    /** `select { case ch <- entry: default: }`. Sending on a closed channel panics. */
    method TrySend(entry: LogEntry)
      requires !closed
      modifies this`queue
      ensures queue == if |old(queue)| < SUBSCRIBER_SLOTS then old(queue) + [entry] else old(queue)
    {
      if |queue| < SUBSCRIBER_SLOTS {
        queue := queue + [entry];
      }
    }

    /** Closing twice panics. */
    method Close()
      requires !closed
      modifies this`closed
      ensures closed
    {
      closed := true;
    }
  }

  datatype LogFilter = LogFilter(bundleID: string, level: string, search: string)

  predicate Contains(s: string, sub: string) {
    sub <= s || (s != "" && Contains(s[1..], sub))
  }

  ghost predicate Occurs(sub: string, s: string) {
    exists before, after :: s == before + sub + after
  }

  lemma {:induction false} ContainsIsSubstring(s: string, sub: string)
    ensures Contains(s, sub) <==> Occurs(sub, s)
  {
    if sub <= s {
      assert s == "" + sub + s[|sub|..];
    } else if s != "" {
      ContainsIsSubstring(s[1..], sub);
      if Contains(s[1..], sub) {
        var before, after :| s[1..] == before + sub + after;
        assert s == (s[..1] + before) + sub + after;
      }
      forall before, after | s == before + sub + after
        ensures Contains(s, sub)
      {
        assert before != "" && s[1..] == before[1..] + sub + after;
      }
    }
  }

  predicate Matches(e: LogEntry, f: LogFilter) {
    && (f.bundleID == "" || e.process == f.bundleID)
    && (f.level == "" || e.level == f.level)
    && (f.search == "" || Contains(e.message, f.search) || Contains(e.raw, f.search))
  }

  function Matching(s: seq<LogEntry>, f: LogFilter): seq<LogEntry> {
    if s == [] then []
    else
      var n := |s| - 1;
      Matching(s[..n], f) + (if Matches(s[n], f) then [s[n]] else [])
  }

  /** The process and the level are those asked for, and the text occurs in the message or the raw line. */
  ghost predicate Wanted(e: LogEntry, f: LogFilter) {
    && (f.bundleID != "" ==> e.process == f.bundleID)
    && (f.level != "" ==> e.level == f.level)
    && (f.search != "" ==> Occurs(f.search, e.message) || Occurs(f.search, e.raw))
  }

  lemma MatchesWanted(e: LogEntry, f: LogFilter)
    ensures Matches(e, f) <==> Wanted(e, f)
  {
    ContainsIsSubstring(e.message, f.search);
    ContainsIsSubstring(e.raw, f.search);
  }

  /** The filter keeps what is wanted, as often as it is there, and nothing else. */
  lemma {:induction false} MatchingSelects(s: seq<LogEntry>, f: LogFilter)
    ensures forall e :: multiset(Matching(s, f))[e] == if Wanted(e, f) then multiset(s)[e] else 0
  {
    if s != [] {
      var n := |s| - 1;
      assert s == s[..n] + [s[n]];
      MatchingSelects(s[..n], f);
      MatchesWanted(s[n], f);
    }
  }

  /** The answer holds exactly the wanted ones of these. */
  ghost predicate Selects(answer: seq<LogEntry>, s: seq<LogEntry>, f: LogFilter) {
    forall e :: e in answer <==> e in s && Wanted(e, f)
  }

  lemma MatchingMembers(s: seq<LogEntry>, f: LogFilter)
    ensures Selects(Matching(s, f), s, f)
  {
    MatchingSelects(s, f);
    forall e
      ensures e in Matching(s, f) <==> e in s && Wanted(e, f)
    {
      assert e in Matching(s, f) <==> multiset(Matching(s, f))[e] > 0;
      assert e in s <==> multiset(s)[e] > 0;
    }
  }

  lemma MatchingNext(s: seq<LogEntry>, i: nat, f: LogFilter)
    requires i < |s|
    ensures Matching(s[..i + 1], f) == Matching(s[..i], f) + if Matches(s[i], f) then [s[i]] else []
  {
    assert s[..i + 1][..i] == s[..i];
  }

  lemma {:induction false} MatchingConcat(a: seq<LogEntry>, b: seq<LogEntry>, f: LogFilter)
    ensures Matching(a + b, f) == Matching(a, f) + Matching(b, f)
  {
    if b == [] {
      assert a + b == a;
    } else {
      var n := |b| - 1;
      MatchingConcat(a, b[..n], f);
      assert (a + b)[..|a + b| - 1] == a + b[..n];
    }
  }

  lemma {:induction false} MatchingEverything(s: seq<LogEntry>)
    ensures Matching(s, LogFilter("", "", "")) == s
  {
    if s != [] {
      MatchingEverything(s[..|s| - 1]);
    }
  }

  ghost predicate IsSuffix<T>(a: seq<T>, b: seq<T>) {
    |a| <= |b| && a == b[|b| - |a|..]
  }

  /** What GetLogs(n, f) returns for a given history and buffer size. */
  function LogView(history: seq<LogEntry>, size: nat, n: int, f: LogFilter): seq<LogEntry> {
    Matching(LastN(history, if n <= 0 || n > size then size else n), f)
  }

  /** Asking for more entries never loses or reorders any: smaller answers are suffixes of larger ones. */
  lemma LogViewGrows(history: seq<LogEntry>, size: nat, m: int, n: int, f: LogFilter)
    requires n <= 0 || 0 < m <= n
    ensures IsSuffix(LogView(history, size, m, f), LogView(history, size, n, f))
  {
    var fewer := if m <= 0 || m > size then size else m;
    var more := if n <= 0 || n > size then size else n;
    LastNSplits(history, fewer, more);
    var pre :| LastN(history, more) == pre + LastN(history, fewer);
    MatchingSuffix(pre, LastN(history, fewer), f);
  }

  lemma LastNSplits<T>(s: seq<T>, m: nat, n: nat)
    requires m <= n
    ensures exists pre :: LastN(s, n) == pre + LastN(s, m)
  {
    var b := LastN(s, n);
    assert b == b[..|b| - |LastN(s, m)|] + LastN(s, m);
  }

  lemma MatchingSuffix(pre: seq<LogEntry>, a: seq<LogEntry>, f: LogFilter)
    ensures IsSuffix(Matching(a, f), Matching(pre + a, f))
  {
    MatchingConcat(pre, a, f);
  }

  /** s with the elements between i and k moved down by one; element k is there twice if i < k. */
  function Shifted<C>(s: seq<C>, i: nat, k: nat): (r: seq<C>)
    requires i <= k < |s|
    ensures |r| == |s|
  {
    s[..i] + s[i + 1..k + 1] + s[k..]
  }

  lemma ShiftedNext<C>(s: seq<C>, i: nat, k: nat)
    requires i <= k < |s| - 1
    ensures Shifted(s, i, k)[k + 1] == s[k + 1]
    ensures Shifted(s, i, k)[k := s[k + 1]] == Shifted(s, i, k + 1)
  {}

  lemma ShiftedPrefix<C>(s: seq<C>, i: nat, k: nat)
    requires i <= k < |s|
    ensures Shifted(s, i, k)[..k] == s[..k + 1][..i] + s[..k + 1][i + 1..]
  {}

  // ---------------------------------------------------------------- the object

  class LogManager {
    const buffer: RingBuffer<LogEntry>
    var udid: string
    var running: bool
    var cancelled: seq<bool>   // one flag for each context; `cancel` sets the last one
    var slots: array<Chan>     // the backing array of the subscriber slice
    var length: nat            // and the slice's length

    ghost function Subscribers(): seq<Chan>
      requires length <= slots.Length
      reads this, slots
    {
      slots[..length]
    }

    ghost predicate Valid()
      reads this, slots, if length <= slots.Length then set c | c in slots[..length] else {}
    {
      && length <= slots.Length
      && View().Consistent()
      && Distinct(Subscribers())
      && forall c | c in Subscribers() :: !c.closed
    }

    ghost function View(): Control<Chan>
      requires length <= slots.Length
      reads this, slots
    {
      Control(running, udid, cancelled, Subscribers())
    }

    constructor (buffer: RingBuffer<LogEntry>)
      ensures Valid() && fresh(slots) && this.buffer == buffer
      ensures View() == Control(false, "", [], [])
    {
      this.buffer := buffer;
      udid, running, cancelled := "", false, [];
      slots := new Chan[0];
      length := 0;
    }

    method Start(device: string)
      requires Valid()
      modifies this`running, this`udid, this`cancelled
      ensures Valid() && View() == old(View()).Started(device)
    {
      if running {
        return;
      }
      cancelled := cancelled + [false];
      udid := device;
      running := true;
    }

    method Stop()
      requires Valid()
      modifies this`running, this`cancelled
      ensures Valid() && View() == old(View()).Stopped()
    {
      if !running {
        return;
      }
      cancelled := cancelled[|cancelled| - 1 := true];
      running := false;
    }

    /** `append(s, ch)`: in place while the backing array has room, else into a larger copy. */
    method Append(ch: Chan)
      requires length <= slots.Length
      modifies this`slots, this`length, slots
      ensures length <= slots.Length && (slots == old(slots) || fresh(slots))
      ensures Subscribers() == old(Subscribers()) + [ch]
    {
      if length == slots.Length {
        var larger := new Chan[2 * length + 1](_ => ch);
        for i := 0 to length
          modifies larger
          invariant larger[..i] == slots[..i]
        {
          larger[i] := slots[i];
        }
        slots := larger;
      }
      slots[length] := ch;
      length := length + 1;
    }

    /** `append(s[:i], s[i+1:]...)`: the rest moves down in the same backing array. */
    method DeleteAt(i: nat)
      requires i < length <= slots.Length
      modifies this`length, slots
      ensures length <= slots.Length
      ensures Subscribers() == old(Subscribers()[..i] + Subscribers()[i + 1..])
    {
      ghost var before := slots[..];
      for k := i to length - 1
        modifies slots
        invariant slots[..] == Shifted(before, i, k)
      {
        ShiftedNext(before, i, k);
        slots[k] := slots[k + 1];
        assert slots[..] == Shifted(before, i, k)[k := before[k + 1]];
      }
      ShiftedPrefix(before, i, length - 1);
      length := length - 1;
    }

    method Subscribe() returns (ch: Chan)
      requires Valid()
      modifies this`slots, this`length, slots
      ensures Valid() && fresh(ch) && ch.queue == []
      ensures slots == old(slots) || fresh(slots)
      ensures View() == old(View()).(subscribers := old(Subscribers()) + [ch])
    {
      ch := new Chan();
      Append(ch);
    }

    method Find(ch: Chan) returns (i: nat)
      requires length <= slots.Length
      ensures i == IndexOf(Subscribers(), ch)
    {
      i := 0;
      while i < length && slots[i] != ch
        invariant i <= length && ch !in Subscribers()[..i]
      {
        i := i + 1;
      }
      IndexOfIs(Subscribers(), ch, i);
    }

    /**
     The function Subscribe returns. Only the slice's own backing array is written, so a
     snapshot taken before stays as it was; a second call finds nothing and closes nothing.
     */
    method Unsubscribe(ch: Chan)
      requires Valid()
      modifies this`length, slots, ch`closed
      ensures Valid()
      ensures View() == old(View()).(subscribers := Without(old(Subscribers()), ch))
      ensures ch.closed == (old(ch.closed) || ch in old(Subscribers()))
    {
      var i := Find(ch);
      if i < length {
        WithoutKeeps(Subscribers(), ch);
        DeleteAt(i);
        ch.Close();
      }
    }

    /** The copy fanOut makes under the lock. */
    method Snapshot() returns (subs: array<Chan>)
      requires Valid()
      ensures fresh(subs) && subs[..] == Subscribers()
    {
      if length == 0 {
        subs := new Chan[0];
        return;
      }
      subs := new Chan[length](_ requires 0 < slots.Length reads this, slots => slots[0]);
      for i := 0 to length
        invariant subs[..i] == slots[..i]
      {
        subs[i] := slots[i];
      }
    }

    /** A fan-out that no unsubscribe interrupts: every subscriber with a free slot gets the entry, once. */
    method FanOut(entry: LogEntry)
      requires Valid()
      modifies set c | c in Subscribers() :: c`queue
      ensures Valid() && View() == old(View())
      ensures forall c | c in Subscribers() ::
                c.queue == if |old(c.queue)| < SUBSCRIBER_SLOTS then old(c.queue) + [entry] else old(c.queue)
    {
      var subs := Snapshot();
      SendAll(subs[..], entry);
    }

    method GetLogs(n: int, f: LogFilter) returns (result: seq<LogEntry>)
      requires buffer.Valid()
      ensures result == LogView(buffer.history, buffer.size, n, f)
      ensures Selects(result, LastN(buffer.history, if n <= 0 || n > buffer.size then buffer.size else n), f)
    {
      var all;
      if n > 0 {
        all := buffer.GetLast(n);
      } else {
        all := buffer.GetAll();
      }
      if f.bundleID == "" && f.level == "" && f.search == "" {
        MatchingEverything(all);
        MatchingMembers(all, f);
        return all;
      }
      MatchingMembers(all, f);
      result := Filtered(all, f);
    }
  }

  method Filtered(all: seq<LogEntry>, f: LogFilter) returns (result: seq<LogEntry>)
    ensures result == Matching(all, f)
  {
    result := [];
    for i := 0 to |all|
      invariant result == Matching(all[..i], f)
    {
      var e := all[i];
      MatchingNext(all, i, f);
      if f.bundleID != "" && e.process != f.bundleID {
        continue;
      }
      if f.level != "" && e.level != f.level {
        continue;
      }
      if f.search != "" {
        if !Contains(e.message, f.search) && !Contains(e.raw, f.search) {
          continue;
        }
      }
      result := result + [e];
    }
    assert all[..|all|] == all;
  }

  /** The non-blocking sends to each channel of a snapshot. */
  method SendAll(chans: seq<Chan>, entry: LogEntry)
    requires Distinct(chans) && forall c | c in chans :: !c.closed
    modifies set c | c in chans :: c`queue
    ensures forall c | c in chans ::
              c.queue == if |old(c.queue)| < SUBSCRIBER_SLOTS then old(c.queue) + [entry] else old(c.queue)
  {
    for i := 0 to |chans|
      modifies set c | c in chans :: c`queue
      invariant forall k | 0 <= k < i ::
          chans[k].queue == if |old(chans[k].queue)| < SUBSCRIBER_SLOTS then old(chans[k].queue) + [entry]
                            else old(chans[k].queue)
      invariant forall k | i <= k < |chans| :: chans[k].queue == old(chans[k].queue)
    {
      assert chans[i] in chans;
      chans[i].TrySend(entry);
    }
  }

  lemma {:induction false} IndexOfIs<C>(s: seq<C>, c: C, i: nat)
    requires i <= |s| && c !in s[..i] && (i < |s| ==> s[i] == c)
    ensures IndexOf(s, c) == i
  {
    if i > 0 {
      assert s[0] == s[..i][0] && s[1..][..i - 1] == s[..i][1..];
      IndexOfIs(s[1..], c, i - 1);
    }
  }
}
