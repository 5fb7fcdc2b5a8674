/** The table that names conversations: the same chat keeps its id, different chats get different ids. */
module ConversationIds {
  import opened Wrappers
  import opened Text

  /** The two maps of the store, in memory or in the file. */
  datatype Table = Table(next: map<string, nat>, ids: map<string, string>)

  const EMPTY: Table := Table(map[], map[])

  function Key(channel: string, chat: string): string {
    channel + "::" + chat
  }

  function Zeros(n: nat): (s: string)
    ensures |s| == n && forall i | 0 <= i < n :: s[i] == '0'
  {
    seq(n, _ => '0')
  }

  /** `{:06}`. */
  function PadSix(n: nat): (s: string)
    ensures AllDigits(s)
  {
    if |Print(n)| >= 6 then Print(n) else Zeros(6 - |Print(n)|) + Print(n)
  }

  function MakeId(channel: string, n: nat): string {
    channel + "-" + PadSix(n)
  }

  function Bump(n: nat): nat {
    if n + 1 < U64_LIMIT then n + 1 else n
  }

  function NextOf(t: Table, channel: string): nat {
    if channel in t.next then t.next[channel] else 1
  }

  /** Adding a chat that is not in the table. */
  function Added(t: Table, channel: string, chat: string): Table {
    Table(t.next[channel := Bump(NextOf(t, channel))],
          t.ids[Key(channel, chat) := MakeId(channel, NextOf(t, channel))])
  }

  /** The table in memory and the one in the file. */
  datatype World = World(memory: Table, file: Table)

  /** `get_or_create`; `saves` is whether writing the file works. */
  function GetOrCreate(w: World, channel: string, chat: string, saves: bool): (World, Result<string, string>) {
    if Key(channel, chat) in w.memory.ids then (w, Ok(w.memory.ids[Key(channel, chat)]))
    else
      var added := Added(w.memory, channel, chat);
      if saves then (World(added, added), Ok(added.ids[Key(channel, chat)]))
      else (World(added, w.file), Err("failed to write"))
  }

  class ConversationIdManager {
    var next: map<string, nat>
    var ids: map<string, string>
    var file: Table

    /** `load_under`. */
    constructor (file: Table)
      ensures View() == World(file, file)
    {
      next, ids, this.file := file.next, file.ids, file;
    }

    function View(): World
      reads this
    {
      World(Table(next, ids), file)
    }

    method Lookup(channel: string, chat: string, saves: bool) returns (r: Result<string, string>)
      modifies this
      ensures (View(), r) == GetOrCreate(old(View()), channel, chat, saves)
    {
      hide MakeId;
      var key := Key(channel, chat);
      if key in ids {
        return Ok(ids[key]);
      }
      if channel !in next {
        next := next[channel := 1];
      }
      var id := MakeId(channel, next[channel]);
      next := next[channel := Bump(next[channel])];
      ids := ids[key := id];
      assert Table(next, ids) == Added(old(View()).memory, channel, chat);
      if !saves {
        return Err("failed to write");
      }
      file := Table(next, ids);
      r := Ok(id);
    }
  }

  // ----- Printing is injective -----

  lemma {:induction false} LeadingZeros(n: nat, s: string)
    requires AllDigits(s)
    ensures AllDigits(Zeros(n) + s) && DigitsValue(Zeros(n) + s) == DigitsValue(s)
    decreases |s| + n
  {
    var all := Zeros(n) + s;
    if s != "" {
      LeadingZeros(n, s[..|s| - 1]);
      assert all[..|all| - 1] == Zeros(n) + s[..|s| - 1];
    } else if n > 0 {
      LeadingZeros(n - 1, s);
      assert all[..|all| - 1] == Zeros(n - 1) + s;
    } else {
      assert all == s;
    }
  }

  lemma {:induction false} PadSixValue(n: nat)
    ensures DigitsValue(PadSix(n)) == n
  {
    hide Print, DigitsValue, Zeros;
    if |Print(n)| < 6 {
      LeadingZeros(6 - |Print(n)|, Print(n));
    }
  }

  lemma {:induction false} PadSixInjective(m: nat, n: nat)
    requires PadSix(m) == PadSix(n)
    ensures m == n
  {
    hide PadSix, DigitsValue;
    PadSixValue(m);
    PadSixValue(n);
  }

  /** An id splits at its last hyphen, so it determines channel and number. */
  lemma {:induction false} MakeIdInjective(c: string, m: nat, d: string, n: nat)
    requires MakeId(c, m) == MakeId(d, n)
    ensures c == d && m == n
  {
    hide PadSix;
    SplitAtHyphen(c, PadSix(m), d, PadSix(n));
    PadSixInjective(m, n);
  }

  lemma {:induction false} SplitAtHyphen(c: string, p: string, d: string, q: string)
    requires AllDigits(p) && AllDigits(q) && c + "-" + p == d + "-" + q
    ensures c == d && p == q
  {
    var a, b := c + "-" + p, d + "-" + q;
    assert a[|c|] == '-' && b[|d|] == '-';
    assert forall i | |c| < i < |a| :: a[i] in p;
    assert forall i | |d| < i < |b| :: b[i] in q;
    assert |c| <= |d|;
    assert |d| <= |c|;
    assert a[..|c|] == c && b[..|d|] == d;
    assert a[|c| + 1..] == p && b[|d| + 1..] == q;
  }

  // ----- Runs -----

  datatype Op = Lookup(channel: string, chat: string, saves: bool) | Restart

  /** `given` is every id handed out, with the chat that asked for it. */
  datatype History = History(w: World, given: seq<Given>)

  datatype Given = Given(channel: string, chat: string, id: string)

  function Step(h: History, op: Op): History {
    match op
    case Restart => h.(w := World(h.w.file, h.w.file))
    case Lookup(channel, chat, saves) =>
      var (after, r) := GetOrCreate(h.w, channel, chat, saves);
      History(after, if r.Ok? then h.given + [Given(channel, chat, r.value)] else h.given)
  }

  function Run(h: History, ops: seq<Op>): History
    decreases |ops|
  {
    if ops == [] then h else Run(Step(h, ops[0]), ops[1..])
  }

  const FIRST: History := History(World(EMPTY, EMPTY), [])

  predicate Holds(t: Table, g: Given) {
    Key(g.channel, g.chat) in t.ids && t.ids[Key(g.channel, g.chat)] == g.id
  }

  /** Every id handed out so far is in the file. */
  predicate Saved(h: History) {
    forall i | 0 <= i < |h.given| :: Holds(h.w.file, h.given[i])
  }

  /** Restarts happen only when what was handed out is saved. */
  predicate Careful(h: History, ops: seq<Op>)
    decreases |ops|
  {
    ops == [] || ((ops[0].Restart? ==> Saved(h)) && Careful(Step(h, ops[0]), ops[1..]))
  }

  /** Two answers are the same id exactly when they were given under the same key. */
  predicate Stable(given: seq<Given>) {
    forall i, j | 0 <= i < |given| && 0 <= j < |given| ::
      given[i].id == given[j].id <==> Key(given[i].channel, given[i].chat) == Key(given[j].channel, given[j].chat)
  }

  /** Every id names its own channel and a number below that channel's counter; keys have different ids. */
  ghost predicate Good(t: Table, limit: nat) {
    && (forall key | key in t.ids :: exists c: string, n: nat :: t.ids[key] == MakeId(c, n) && n < NextOf(t, c))
    && (forall k, l | k in t.ids && l in t.ids && k != l :: t.ids[k] != t.ids[l])
    && (forall c | c in t.next :: 1 <= t.next[c] <= limit)
  }

  ghost predicate Inv(h: History, limit: nat) {
    && Good(h.w.memory, limit) && Good(h.w.file, limit)
    && forall i | 0 <= i < |h.given| :: Holds(h.w.memory, h.given[i])
  }

  lemma {:induction false} AddedGood(t: Table, channel: string, chat: string, limit: nat)
    requires Good(t, limit) && 1 <= limit && limit + 1 < U64_LIMIT && Key(channel, chat) !in t.ids
    ensures Good(Added(t, channel, chat), limit + 1)
  {
    hide MakeId;
    var after, number, newId := Added(t, channel, chat), NextOf(t, channel), MakeId(channel, NextOf(t, channel));
    forall key | key in t.ids
      ensures t.ids[key] != newId
      ensures exists c: string, n: nat :: after.ids[key] == MakeId(c, n) && n < NextOf(after, c)
    {
      var c: string, n: nat :| t.ids[key] == MakeId(c, n) && n < NextOf(t, c);
      if t.ids[key] == newId {
        MakeIdInjective(c, n, channel, number);
      }
      assert n < NextOf(after, c);
    }
    assert after.ids[Key(channel, chat)] == MakeId(channel, number) && number < NextOf(after, channel);
  }

  lemma {:induction false} StepKeeps(h: History, op: Op, limit: nat)
    requires Inv(h, limit) && 1 <= limit && limit + 1 < U64_LIMIT
    requires op.Restart? ==> Saved(h)
    ensures Inv(Step(h, op), limit + 1)
  {
    hide MakeId, Key;
    match op {
      case Restart =>
      case Lookup(channel, chat, saves) =>
        if Key(channel, chat) !in h.w.memory.ids {
          AddedGood(h.w.memory, channel, chat, limit);
        }
    }
  }

  lemma {:induction false} RunKeeps(h: History, ops: seq<Op>, limit: nat)
    requires Inv(h, limit) && Careful(h, ops) && 1 <= limit && limit + |ops| < U64_LIMIT
    ensures Inv(Run(h, ops), limit + |ops|)
    decreases |ops|
  {
    hide Inv, Step;
    if ops != [] {
      StepKeeps(h, ops[0], limit);
      RunKeeps(Step(h, ops[0]), ops[1..], limit + 1);
    }
  }

  /** Over every run in which restarts find the answers saved. */
  lemma {:induction false} IdsStableAndDistinct(ops: seq<Op>)
    requires Careful(FIRST, ops) && 1 + |ops| < U64_LIMIT
    ensures Stable(Run(FIRST, ops).given)
  {
    hide MakeId, Key, Step;
    RunKeeps(FIRST, ops, 1);
  }

  /**
   And that condition is exact: at any point, a restart followed by one lookup is harmless for every lookup exactly
   when everything handed out was saved. `other` is any chat that is new everywhere.
   */
  lemma {:induction false} RestartIsSafe(h: History, other: string, limit: nat)
    requires Inv(h, limit) && 1 <= limit && limit + 2 < U64_LIMIT
    requires forall i | 0 <= i < |h.given| ::
               other != h.given[i].chat && Key(h.given[i].channel, other) !in h.w.file.ids
    ensures Saved(h) <==> forall channel, chat :: Stable(Step(Step(h, Restart), Lookup(channel, chat, true)).given)
  {
    hide MakeId, Key;
    var restarted := Step(h, Restart);
    if Saved(h) {
      forall channel, chat
        ensures Stable(Step(restarted, Lookup(channel, chat, true)).given)
      {
        StepKeeps(h, Restart, limit);
        StepKeeps(restarted, Lookup(channel, chat, true), limit + 1);
      }
    } else {
      var i :| 0 <= i < |h.given| && !Holds(h.w.file, h.given[i]);
      UnsavedBreaks(h, i, other);
    }
  }

  /** Asking for the same chat again gives another id, or asking for a new chat gives the same one. */
  lemma {:induction false} UnsavedBreaks(h: History, i: nat, other: string)
    requires i < |h.given| && !Holds(h.w.file, h.given[i])
    requires other != h.given[i].chat && Key(h.given[i].channel, other) !in h.w.file.ids
    ensures exists channel, chat :: !Stable(Step(Step(h, Restart), Lookup(channel, chat, true)).given)
  {
    hide MakeId;
    var restarted, channel, chat := Step(h, Restart), h.given[i].channel, h.given[i].chat;
    var same := Step(restarted, Lookup(channel, chat, true)).given;
    var another := Step(restarted, Lookup(channel, other, true)).given;
    assert Key(channel, chat)[|channel| + 2..] == chat && Key(channel, other)[|channel| + 2..] == other;
    hide Key;
    assert same[i] == h.given[i] && same[|h.given|].chat == chat;
    assert another[i] == h.given[i] && another[|h.given|].id == MakeId(channel, NextOf(h.w.file, channel));
    if h.given[i].id == another[|h.given|].id {
      assert !Stable(another);
    } else {
      assert !Stable(same);
    }
  }

  // ----- When keys clash -----

  predicate CanRunOn(c: string, d: string) {
    d == c + ":" || c + "::" <= d
  }

  /** Two channels can share a key exactly when one is the other followed by a colon, or by two and anything. */
  lemma {:induction false} KeysClash(c: string, d: string)
    requires c != d
    ensures (exists x, y :: Key(c, x) == Key(d, y)) <==> CanRunOn(c, d) || CanRunOn(d, c)
  {
    if exists x, y :: Key(c, x) == Key(d, y) {
      var x, y :| Key(c, x) == Key(d, y);
      ClashNeeds(c, x, d, y);
    }
    if CanRunOn(c, d) {
      ClashFollows(c, d);
    }
    if CanRunOn(d, c) {
      ClashFollows(d, c);
      var x, y :| Key(d, x) == Key(c, y);
      assert Key(c, y) == Key(d, x);
    }
  }

  lemma {:induction false} ClashNeeds(c: string, x: string, d: string, y: string)
    requires c != d && Key(c, x) == Key(d, y)
    ensures CanRunOn(c, d) || CanRunOn(d, c)
  {
    var a, b := Key(c, x), Key(d, y);
    assert a[..|c|] == c && b[..|d|] == d;
    if |c| <= |d| {
      RunsOn(c, x, d, y);
    } else {
      RunsOn(d, y, c, x);
    }
  }

  lemma {:induction false} RunsOn(c: string, x: string, d: string, y: string)
    requires c != d && Key(c, x) == Key(d, y) && |c| <= |d|
    ensures CanRunOn(c, d)
  {
    var a, b := Key(c, x), Key(d, y);
    assert a[..|c|] == c && b[..|c|] == d[..|c|];
    assert d[..|d|] == d;
    assert d[|c|] == b[|c|] == a[|c|] == ':';
    if |d| > |c| + 1 {
      assert d[|c| + 1] == b[|c| + 1] == a[|c| + 1] == ':';
      assert d[..|c| + 2] == c + "::";
    } else {
      assert d == c + ":";
    }
  }

  lemma {:induction false} ClashFollows(c: string, d: string)
    requires CanRunOn(c, d)
    ensures exists x, y :: Key(c, x) == Key(d, y)
  {
    if d == c + ":" {
      assert Key(c, ":") == Key(d, "");
    } else {
      var r := d[|c| + 2..];
      assert d == c + "::" + r;
      assert Key(c, r + "::") == Key(d, "");
    }
  }

  /** Channels without a colon never clash: different chats have different keys. */
  lemma {:induction false} KeyInjective(c: string, x: string, d: string, y: string)
    requires ':' !in c && ':' !in d && Key(c, x) == Key(d, y)
    ensures c == d && x == y
  {
    if c != d {
      ClashNeeds(c, x, d, y);
      ColonIn(c, d);
      ColonIn(d, c);
    } else {
      assert Key(c, x)[|c| + 2..] == x && Key(d, y)[|d| + 2..] == y;
    }
  }

  lemma {:induction false} ColonIn(c: string, d: string)
    ensures CanRunOn(c, d) ==> ':' in d
  {
    if CanRunOn(c, d) {
      assert d[|c|] == ':';
    }
  }

  /** Stable and injective on chats: with colon-free channels, same id exactly when same channel and same chat. */
  lemma {:induction false} ChatsStableAndDistinct(ops: seq<Op>, i: nat, j: nat)
    requires Careful(FIRST, ops) && 1 + |ops| < U64_LIMIT
    requires i < |Run(FIRST, ops).given| && j < |Run(FIRST, ops).given|
    requires ':' !in Run(FIRST, ops).given[i].channel && ':' !in Run(FIRST, ops).given[j].channel
    ensures var a, b := Run(FIRST, ops).given[i], Run(FIRST, ops).given[j];
            a.id == b.id <==> a.channel == b.channel && a.chat == b.chat
  {
    hide Key, Run, Careful;
    IdsStableAndDistinct(ops);
    var a, b := Run(FIRST, ops).given[i], Run(FIRST, ops).given[j];
    if Key(a.channel, a.chat) == Key(b.channel, b.chat) {
      KeyInjective(a.channel, a.chat, b.channel, b.chat);
    }
  }

  /**
   The saved file matters: after a failed save the id is handed out from memory by the next call, a restart forgets
   it, and the next new chat of that channel gets the same id.
   */
  lemma {:induction false} UnsavedIdIsReused(channel: string, chat: string, other: string)
    requires chat != other
    ensures var ops := [Lookup(channel, chat, false), Lookup(channel, chat, true), Restart, Lookup(channel, other, true)];
            var given := Run(FIRST, ops).given;
            && !Careful(FIRST, ops) && |given| == 2
            && given[0].chat == chat && given[1].chat == other && given[0].id == given[1].id
  {
    hide MakeId;
    var ops := [Lookup(channel, chat, false), Lookup(channel, chat, true), Restart, Lookup(channel, other, true)];
    var one := Step(FIRST, ops[0]);
    var two := Step(one, ops[1]);
    var three := Step(two, ops[2]);
    var four := Step(three, ops[3]);
    assert ops[1..][1..][1..][1..] == [];
    assert Run(three, ops[1..][1..][1..]) == four;
    assert Run(two, ops[1..][1..]) == four;
    assert Run(one, ops[1..]) == four;
    assert !Holds(two.w.file, two.given[0]) && !Saved(two);
    assert !Careful(two, ops[1..][1..]);
    assert !Careful(one, ops[1..]);
  }
}
