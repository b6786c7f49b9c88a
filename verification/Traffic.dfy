/** The MQTT addon's breakdown of a user's traffic by device, inferred from the topics seen. */
module Traffic {
  import opened Text
  import ComposeFile

  datatype TopicItem = TopicItem(topic: string, messages: int, lastSeen: string)

  datatype Principal = Principal(kind: string, identity: string, prefix: string, username: string,
                                 avgRate: real, rate: real)

  /** A topic that belongs to the user, with its device. */
  datatype Seen = Seen(topic: string, messages: int, at: Option<string>, device: string)

  datatype Device = Device(id: string, messages: int, topicCount: nat, lastSeen: Option<string>, topics: seq<string>)

  datatype Row = Row(id: string, messages: int, topicCount: nat, lastSeen: Option<string>, topics: seq<string>, rate: real)

  datatype UserItem = UserItem(who: Principal, topicCount: nat, messages: int, lastObserved: Option<string>, devices: seq<Row>)

  const ROOT := "root"

  function Normalized(s: string): string { StripSlashes(Strip(s)) }

  predicate InScope(topic: string, scope: string) {
    var t, s := Normalized(topic), Normalized(scope);
    t != "" && s != "" && (t == s || s + "/" <= t)
  }

  function OrRoot(s: string): string { if s == "" then ROOT else s }

  function InferDevice(topic: string, prefix: string): string {
    var t, p := Normalized(topic), Normalized(prefix);
    if t == "" then ROOT
    else if p != "" && InScope(t, p) then
      var remainder := if |p| <= |t| then StripSlashes(t[|p|..]) else "";
      if remainder == "" then ROOT else OrRoot(Strip(Split(remainder, '/')[0]))
    else
      var levels := Split(t, '/');
      if |levels| >= 2 then OrRoot(Strip(levels[1])) else ROOT
  }

  predicate IsGenericUser(p: Principal) {
    ComposeFile.Lower(Strip(p.kind)) == "generic_user" || "generic:" <= ComposeFile.Lower(Strip(p.identity))
  }

  predicate Owns(p: Principal, topic: string) {
    if topic == "" then false
    else if Normalized(p.prefix) != "" then InScope(topic, Normalized(p.prefix))
    else Strip(p.username) != "" && Strip(p.username) + "/" <= topic
  }

  function SeenAt(lastSeen: string): Option<string> {
    if Strip(lastSeen) == "" then None else Some(Strip(lastSeen))
  }

  function Observe(p: Principal, item: TopicItem): Seen {
    Seen(Strip(item.topic), item.messages, SeenAt(item.lastSeen), InferDevice(Strip(item.topic), Normalized(p.prefix)))
  }

  function Matched(p: Principal, items: seq<TopicItem>): seq<Seen> {
    if items == [] then []
    else
      var n := |items| - 1;
      Matched(p, items[..n]) + if Owns(p, Strip(items[n].topic)) then [Observe(p, items[n])] else []
  }

  /** The later of two times, compared as text. */
  function Later(a: Option<string>, b: Option<string>): Option<string> {
    if b.Some? && (a.None? || Less(a.value, b.value)) then b else a
  }

  // ---------------------------------------------------------------- the devices, in the order they appear

  function Find(t: seq<Device>, id: string): (i: nat)
    ensures i <= |t| && (i < |t| ==> t[i].id == id)
    ensures forall k :: 0 <= k < i ==> t[k].id != id
    decreases |t|
  {
    if t == [] || t[0].id == id then 0 else 1 + Find(t[1..], id)
  }

  function Merge(d: Device, s: Seen): Device {
    Device(d.id, d.messages + s.messages, d.topicCount + 1, Later(d.lastSeen, s.at), d.topics + [s.topic])
  }

  function Blank(id: string): Device { Device(id, 0, 0, None, []) }

  function Put(t: seq<Device>, s: Seen): seq<Device> {
    var i := Find(t, s.device);
    if i < |t| then t[i := Merge(t[i], s)] else t + [Merge(Blank(s.device), s)]
  }

  function Table(seen: seq<Seen>): seq<Device> {
    if seen == [] then [] else Put(Table(seen[..|seen| - 1]), seen[|seen| - 1])
  }

  predicate DistinctIds(t: seq<Device>) { forall i, j :: 0 <= i < j < |t| ==> t[i].id != t[j].id }

  lemma {:induction false} TableDistinct(seen: seq<Seen>)
    ensures DistinctIds(Table(seen))
    decreases |seen|
  {
    if seen != [] { TableDistinct(seen[..|seen| - 1]); }
  }

  // ---------------------------------------------------------------- grouping, said without a table

  function Group(seen: seq<Seen>, id: string): seq<Seen> {
    if seen == [] then []
    else
      var n := |seen| - 1;
      Group(seen[..n], id) + if seen[n].device == id then [seen[n]] else []
  }

  function Messages(seen: seq<Seen>): int {
    if seen == [] then 0 else Messages(seen[..|seen| - 1]) + seen[|seen| - 1].messages
  }

  function Latest(seen: seq<Seen>): Option<string> {
    if seen == [] then None else Later(Latest(seen[..|seen| - 1]), seen[|seen| - 1].at)
  }

  function Topics(seen: seq<Seen>): seq<string> {
    if seen == [] then [] else Topics(seen[..|seen| - 1]) + [seen[|seen| - 1].topic]
  }

  function Summary(id: string, group: seq<Seen>): Device {
    Device(id, Messages(group), |group|, Latest(group), Topics(group))
  }

  lemma SummaryGrows(id: string, group: seq<Seen>, s: Seen)
    ensures Summary(id, group + [s]) == Merge(Summary(id, group), s)
  {
    assert (group + [s])[..|group|] == group;
  }

  /** Each device of the table is the summary of exactly the topics inferred to be its own. */
  lemma {:induction false} TableGroups(seen: seq<Seen>, id: string)
    ensures var t := Table(seen);
            var i := Find(t, id);
            if i < |t| then Group(seen, id) != [] && t[i] == Summary(id, Group(seen, id)) else Group(seen, id) == []
    decreases |seen|
  {
    if seen != [] {
      var n := |seen| - 1;
      var s, t := seen[n], Table(seen[..n]);
      TableGroups(seen[..n], id);
      TableDistinct(seen[..n]);
      FindAfterPut(t, s, id);
      SummaryGrows(id, Group(seen[..n], id), s);
      assert Group(seen[..n], id) + [] == Group(seen[..n], id);
    }
  }

  lemma FindAfterPut(t: seq<Device>, s: Seen, id: string)
    requires DistinctIds(t)
    ensures var u := Put(t, s);
            var i := Find(u, id);
            if id == s.device then i < |u| && u[i] == Merge(if Find(t, id) < |t| then t[Find(t, id)] else Blank(id), s)
            else (i < |u| <==> Find(t, id) < |t|) && (i < |u| ==> u[i] == t[Find(t, id)])
  {
    var u := Put(t, s);
    var i, k := Find(t, id), Find(t, s.device);
    if k < |t| {
      assert forall x :: 0 <= x < |t| ==> u[x].id == t[x].id;
    } else {
      assert forall x :: 0 <= x < |t| ==> u[x] == t[x];
      assert u[|t|].id == s.device;
    }
    assert id == s.device && i < |t| ==> u[i].id == id;
    assert id != s.device && i < |t| ==> u[i] == t[i];
  }

  // ---------------------------------------------------------------- conservation

  function MessageSum(t: seq<Device>): int {
    if t == [] then 0 else t[0].messages + MessageSum(t[1..])
  }

  function TopicSum(t: seq<Device>): nat {
    if t == [] then 0 else t[0].topicCount + TopicSum(t[1..])
  }

  function LatestDevice(t: seq<Device>): Option<string> {
    if t == [] then None else Later(LatestDevice(t[1..]), t[0].lastSeen)
  }

  lemma LaterLattice(a: Option<string>, b: Option<string>, c: Option<string>)
    ensures Later(a, b) == Later(b, a)
    ensures Later(Later(a, b), c) == Later(a, Later(b, c))
  {
    if a.Some? && b.Some? { LessTotal(a.value, b.value); }
    if b.Some? && c.Some? { LessTotal(b.value, c.value); }
    if a.Some? && c.Some? { LessTotal(a.value, c.value); }
    if a.Some? && b.Some? && c.Some? {
      if Less(a.value, b.value) && Less(b.value, c.value) { LessTransitive(a.value, b.value, c.value); }
      if Less(c.value, b.value) && Less(b.value, a.value) { LessTransitive(c.value, b.value, a.value); }
      if Less(b.value, a.value) && Less(a.value, c.value) { LessTransitive(b.value, a.value, c.value); }
      if Less(a.value, c.value) && Less(c.value, b.value) { LessTransitive(a.value, c.value, b.value); }
    }
  }

  /** One topic adds its messages, one topic and its time to the table, wherever it lands. */
  lemma {:induction false} PutAdds(t: seq<Device>, s: Seen)
    ensures MessageSum(Put(t, s)) == MessageSum(t) + s.messages
    ensures TopicSum(Put(t, s)) == TopicSum(t) + 1
    ensures LatestDevice(Put(t, s)) == Later(LatestDevice(t), s.at)
    decreases |t|
  {
    if t == [] {
      assert Put(t, s)[1..] == [];
    } else if t[0].id == s.device {
      assert Put(t, s)[1..] == t[1..];
      LaterLattice(LatestDevice(t[1..]), t[0].lastSeen, s.at);
    } else {
      PutAdds(t[1..], s);
      assert Put(t, s)[1..] == Put(t[1..], s);
      var l := LatestDevice(t[1..]);
      LaterLattice(l, s.at, t[0].lastSeen);
      LaterLattice(l, t[0].lastSeen, s.at);
      LaterLattice(s.at, t[0].lastSeen, l);
    }
  }

  lemma {:induction false} TableConserves(seen: seq<Seen>)
    ensures MessageSum(Table(seen)) == Messages(seen) && TopicSum(Table(seen)) == |seen|
    ensures LatestDevice(Table(seen)) == Latest(seen)
    decreases |seen|
  {
    if seen != [] {
      TableConserves(seen[..|seen| - 1]);
      PutAdds(Table(seen[..|seen| - 1]), seen[|seen| - 1]);
    }
  }

  // ---------------------------------------------------------------- sorting

  function InsertDevice(d: Device, t: seq<Device>): seq<Device>
    decreases |t|
  {
    if t == [] || Less(d.id, t[0].id) then [d] + t else [t[0]] + InsertDevice(d, t[1..])
  }

  function SortById(t: seq<Device>): seq<Device> {
    if t == [] then [] else InsertDevice(t[0], SortById(t[1..]))
  }

  predicate SortedById(t: seq<Device>) { forall i, j :: 0 <= i < j < |t| ==> Less(t[i].id, t[j].id) }

  lemma {:induction false} InsertKeeps(d: Device, t: seq<Device>)
    ensures var u := InsertDevice(d, t);
            && multiset(u) == multiset(t) + multiset{d}
            && MessageSum(u) == MessageSum(t) + d.messages && TopicSum(u) == TopicSum(t) + d.topicCount
            && LatestDevice(u) == Later(LatestDevice(t), d.lastSeen)
    decreases |t|
  {
    if t == [] || Less(d.id, t[0].id) {
      assert ([d] + t)[1..] == t;
    } else {
      InsertKeeps(d, t[1..]);
      var rest := InsertDevice(d, t[1..]);
      assert ([t[0]] + rest)[1..] == rest;
      assert t == [t[0]] + t[1..];
      var l := LatestDevice(t[1..]);
      LaterLattice(l, d.lastSeen, t[0].lastSeen);
      LaterLattice(l, t[0].lastSeen, d.lastSeen);
      LaterLattice(t[0].lastSeen, d.lastSeen, l);
    }
  }

  lemma {:induction false} InsertSorted(d: Device, t: seq<Device>)
    requires SortedById(t) && forall k :: 0 <= k < |t| ==> t[k].id != d.id
    ensures SortedById(InsertDevice(d, t))
    decreases |t|
  {
    if t == [] {
    } else if Less(d.id, t[0].id) {
      forall k | 0 < k < |t| ensures Less(d.id, t[k].id) { LessTransitive(d.id, t[0].id, t[k].id); }
    } else {
      LessTotal(d.id, t[0].id);
      InsertSorted(d, t[1..]);
      InsertKeeps(d, t[1..]);
      var rest := InsertDevice(d, t[1..]);
      forall k | 0 <= k < |rest| ensures Less(t[0].id, rest[k].id) {
        assert rest[k] in multiset(rest);
        assert rest[k] == d || rest[k] in t[1..];
      }
    }
  }

  lemma {:induction false} SortSums(t: seq<Device>)
    ensures var u := SortById(t);
            MessageSum(u) == MessageSum(t) && TopicSum(u) == TopicSum(t) && LatestDevice(u) == LatestDevice(t)
    decreases |t|
  {
    if t != [] {
      SortSums(t[1..]);
      InsertKeeps(t[0], SortById(t[1..]));
    }
  }

  lemma {:induction false} SortPermutes(t: seq<Device>)
    ensures multiset(SortById(t)) == multiset(t) && |SortById(t)| == |t|
    ensures forall d :: d in SortById(t) <==> d in t
    decreases |t|
  {
    if t != [] {
      SortPermutes(t[1..]);
      InsertKeeps(t[0], SortById(t[1..]));
      assert t == [t[0]] + t[1..];
      assert |multiset(SortById(t))| == |multiset(t)|;
    }
    forall d ensures d in SortById(t) <==> d in t {
      assert d in multiset(SortById(t)) <==> d in multiset(t);
    }
  }

  /** Sorting puts the devices in order of id. */
  lemma {:induction false} SortSorts(t: seq<Device>)
    requires DistinctIds(t)
    ensures SortedById(SortById(t))
    decreases |t|
  {
    if t != [] {
      SortSorts(t[1..]);
      SortPermutes(t[1..]);
      var u := SortById(t[1..]);
      forall k | 0 <= k < |u| ensures u[k].id != t[0].id { assert u[k] in u; }
      InsertSorted(t[0], u);
    }
  }

  // ---------------------------------------------------------------- rates

  /** `round(x, 3)` over reals: to the nearest thousandth, a tie to the even one. */
  function Round3(x: real): real {
    var n := (x * 1000.0).Floor;
    var rest := x * 1000.0 - n as real;
    (if rest < 0.5 || (rest == 0.5 && n % 2 == 0) then n else n + 1) as real / 1000.0
  }

  lemma RoundingError(x: real)
    ensures x - 0.0005 <= Round3(x) <= x + 0.0005
  {}

  /** A rounded rate is the nearest number of thousandths, and of two as near the even one. */
  lemma RoundedExactly(x: real) returns (n: int)
    ensures Round3(x) == n as real / 1000.0 && n as real - 0.5 <= 1000.0 * x <= n as real + 0.5
    ensures 1000.0 * x == n as real - 0.5 || 1000.0 * x == n as real + 0.5 ==> n % 2 == 0
  {
    n := (x * 1000.0).Floor;
    var rest := x * 1000.0 - n as real;
    if rest > 0.5 || (rest == 0.5 && n % 2 != 0) { n := n + 1; }
  }

  function Share(messages: int, total: int): real {
    if total > 0 then messages as real / total as real else 0.0
  }

  function RateOf(p: Principal): real { if p.avgRate != 0.0 then p.avgRate else p.rate }

  function RowOf(d: Device, rate: real, total: int): Row {
    Row(d.id, d.messages, d.topicCount, d.lastSeen, SortedSet(d.topics), Round3(rate * Share(d.messages, total)))
  }

  function Rows(t: seq<Device>, rate: real, total: int): (rows: seq<Row>)
    ensures |rows| == |t| && forall k :: 0 <= k < |t| ==> rows[k] == RowOf(t[k], rate, total)
  {
    if t == [] then [] else [RowOf(t[0], rate, total)] + Rows(t[1..], rate, total)
  }

  function RateSum(rows: seq<Row>): real {
    if rows == [] then 0.0 else rows[0].rate + RateSum(rows[1..])
  }

  lemma SharesAdd(a: int, b: int, total: int, rate: real)
    requires total > 0
    ensures rate * Share(a + b, total) == rate * Share(a, total) + rate * Share(b, total)
  {
    var t := total as real;
    assert (a + b) as real / t == a as real / t + b as real / t;
  }

  lemma WholeShare(total: int)
    requires total > 0
    ensures Share(total, total) == 1.0 && Share(0, total) == 0.0
  {
    var t := total as real;
    assert t / t == 1.0 && 0.0 / t == 0.0;
  }

  /** What rounding may have changed in the sum of `n` rates. */
  function Slack(n: nat): real { 0.0005 * n as real }

  predicate Near(sum: real, exact: real, n: nat) { exact - Slack(n) <= sum <= exact + Slack(n) }

  lemma OneMore(sum: real, exact: real, mine: real, n: nat)
    requires Near(sum, exact, n)
    ensures Near(Round3(mine) + sum, mine + exact, n + 1)
  {
    RoundingError(mine);
    assert Slack(n + 1) == 0.0005 + Slack(n);
  }

  function ExactRate(d: Device, rate: real, total: int): real { rate * Share(d.messages, total) }

  function ExactSum(t: seq<Device>, rate: real, total: int): real {
    if t == [] then 0.0 else ExactRate(t[0], rate, total) + ExactSum(t[1..], rate, total)
  }

  lemma {:induction false} RoundedNearExact(t: seq<Device>, rate: real, total: int)
    ensures Near(RateSum(Rows(t, rate, total)), ExactSum(t, rate, total), |t|)
    decreases |t|
  {
    if t != [] {
      RoundedNearExact(t[1..], rate, total);
      OneMore(RateSum(Rows(t[1..], rate, total)), ExactSum(t[1..], rate, total), ExactRate(t[0], rate, total), |t[1..]|);
      RowsTail(t, rate, total);
    }
  }

  lemma {:induction false} ExactSumsUp(t: seq<Device>, rate: real, total: int)
    requires total > 0
    ensures ExactSum(t, rate, total) == rate * Share(MessageSum(t), total)
    decreases |t|
  {
    if t == [] {
      WholeShare(total);
    } else {
      ExactSumsUp(t[1..], rate, total);
      SharesAdd(t[0].messages, MessageSum(t[1..]), total, rate);
    }
  }

  lemma RowsTail(t: seq<Device>, rate: real, total: int)
    requires t != []
    ensures RateSum(Rows(t, rate, total)) == Round3(rate * Share(t[0].messages, total)) + RateSum(Rows(t[1..], rate, total))
  {
    assert Rows(t, rate, total)[1..] == Rows(t[1..], rate, total);
  }

  // ---------------------------------------------------------------- the whole item

  function Breakdown(p: Principal, items: seq<TopicItem>): UserItem {
    var seen := Matched(p, items);
    UserItem(p, |seen|, Messages(seen), Latest(seen), Rows(SortById(Table(seen)), RateOf(p), Messages(seen)))
  }

  function RowMessages(rows: seq<Row>): int {
    if rows == [] then 0 else rows[0].messages + RowMessages(rows[1..])
  }

  function RowTopics(rows: seq<Row>): nat {
    if rows == [] then 0 else rows[0].topicCount + RowTopics(rows[1..])
  }

  function RowLatest(rows: seq<Row>): Option<string> {
    if rows == [] then None else Later(RowLatest(rows[1..]), rows[0].lastSeen)
  }

  lemma {:induction false} RowSums(t: seq<Device>, rate: real, total: int)
    ensures var rows := Rows(t, rate, total);
            RowMessages(rows) == MessageSum(t) && RowTopics(rows) == TopicSum(t) && RowLatest(rows) == LatestDevice(t)
    decreases |t|
  {
    if t != [] {
      RowSums(t[1..], rate, total);
      assert Rows(t, rate, total)[1..] == Rows(t[1..], rate, total);
    }
  }

  /** Nothing is lost or counted twice: the devices' messages, topics and latest time are the user's. */
  lemma Conservation(p: Principal, items: seq<TopicItem>)
    ensures var u := Breakdown(p, items);
            && RowMessages(u.devices) == u.messages
            && RowTopics(u.devices) == u.topicCount
            && RowLatest(u.devices) == u.lastObserved
  {
    var seen := Matched(p, items);
    TableConserves(seen);
    SortSums(Table(seen));
    RowSums(SortById(Table(seen)), RateOf(p), Messages(seen));
  }

  /** With a positive total the rounded rates add up to the user's rate within 0.0005 for each device. */
  lemma RatesConserved(p: Principal, items: seq<TopicItem>)
    requires Breakdown(p, items).messages > 0
    ensures var rows, rate := Breakdown(p, items).devices, if p.avgRate != 0.0 then p.avgRate else p.rate;
            rate - 0.0005 * |rows| as real <= RateSum(rows) <= rate + 0.0005 * |rows| as real
  {
    var seen := Matched(p, items);
    TableConserves(seen);
    SortSums(Table(seen));
    RoundedNearExact(SortById(Table(seen)), RateOf(p), Messages(seen));
    ExactSumsUp(SortById(Table(seen)), RateOf(p), Messages(seen));
    WholeShare(Messages(seen));
  }

  /** The rate times the share of the messages, to within half a thousandth; 0 without messages. */
  predicate Fair(rate: real, messages: int, total: int, r: real) {
    if total > 0 then
      var exact := rate * (messages as real / total as real);
      exact - 0.0005 <= r <= exact + 0.0005
    else r == 0.0
  }

  lemma RowIsFair(d: Device, rate: real, total: int)
    ensures Fair(rate, d.messages, total, RowOf(d, rate, total).rate)
  {
    RoundingError(rate * Share(d.messages, total));
    assert total <= 0 ==> rate * Share(d.messages, total) == 0.0;
  }

  /** Each row has its fair part of the user's rate. */
  lemma RowRate(p: Principal, items: seq<TopicItem>, k: nat)
    requires k < |Breakdown(p, items).devices|
    ensures var u := Breakdown(p, items);
            Fair(if p.avgRate != 0.0 then p.avgRate else p.rate, u.devices[k].messages, u.messages, u.devices[k].rate)
  {
    var seen := Matched(p, items);
    var sorted := SortById(Table(seen));
    assert Breakdown(p, items).devices == Rows(sorted, RateOf(p), Messages(seen));
    RowIsFair(sorted[k], RateOf(p), Messages(seen));
  }

  /** The rows come in order of device id, one per device, and each sums up exactly the topics inferred to be its own. */
  lemma RowsAreGroups(p: Principal, items: seq<TopicItem>, k: nat)
    requires k < |Breakdown(p, items).devices|
    ensures var rows, seen := Breakdown(p, items).devices, Matched(p, items);
            var group := Group(seen, rows[k].id);
            && group != []
            && rows[k].messages == Messages(group) && rows[k].topicCount == |group| && rows[k].lastSeen == Latest(group)
            && (forall x :: x in rows[k].topics <==> x in Topics(group)) && Ascending(rows[k].topics)
            && (forall j :: 0 <= j < k ==> Less(rows[j].id, rows[k].id))
  {
    var seen := Matched(p, items);
    var t := Table(seen);
    var sorted := SortById(t);
    TableDistinct(seen);
    SortPermutes(t);
    SortSorts(t);
    var d := sorted[k];
    assert d in sorted;
    assert d in t;
    var i :| 0 <= i < |t| && t[i] == d;
    assert Find(t, d.id) == i;
    TableGroups(seen, d.id);
    SortedSetKeeps(d.topics);
  }

  /** Every topic the user owns is in some row. */
  lemma EveryTopicHasARow(p: Principal, items: seq<TopicItem>, s: Seen) returns (k: nat)
    requires s in Matched(p, items)
    ensures k < |Breakdown(p, items).devices| && Breakdown(p, items).devices[k].id == s.device
  {
    var seen := Matched(p, items);
    SortPermutes(Table(seen));
    InGroup(seen, s);
    TableGroups(seen, s.device);
    var d := Table(seen)[Find(Table(seen), s.device)];
    assert d in Table(seen);
    k :| 0 <= k < |SortById(Table(seen))| && SortById(Table(seen))[k] == d;
  }

  lemma {:induction false} InGroup(seen: seq<Seen>, s: Seen)
    requires s in seen
    ensures s in Group(seen, s.device)
    decreases |seen|
  {
    var n := |seen| - 1;
    if seen[n] != s { InGroup(seen[..n], s); }
  }

  function Items(principals: seq<Principal>, topics: seq<TopicItem>): seq<UserItem> {
    if principals == [] then []
    else
      var n := |principals| - 1;
      Items(principals[..n], topics) + if IsGenericUser(principals[n]) then [Breakdown(principals[n], topics)] else []
  }

  lemma SeenMore(seen: seq<Seen>, s: Seen)
    ensures Table(seen + [s]) == Put(Table(seen), s) && Messages(seen + [s]) == Messages(seen) + s.messages
    ensures Latest(seen + [s]) == Later(Latest(seen), s.at)
  {
    assert (seen + [s])[..|seen|] == seen;
  }

  lemma MatchedMore(p: Principal, topics: seq<TopicItem>, i: nat)
    requires i < |topics|
    ensures Matched(p, topics[..i + 1])
            == Matched(p, topics[..i]) + if Owns(p, Strip(topics[i].topic)) then [Observe(p, topics[i])] else []
  {
    assert topics[..i + 1][..i] == topics[..i];
  }

  method Count(devices: seq<Device>, id: string, topic: string, messages: int, at: Option<string>) returns (r: seq<Device>)
    ensures r == Put(devices, Seen(topic, messages, at, id))
  {
    r := devices;
    var k := Find(r, id);
    if k == |r| { r := r + [Blank(id)]; }
    var d := r[k];
    var last := d.lastSeen;
    if at.Some? && (last.None? || Less(last.value, at.value)) { last := at; }
    r := r[k := Device(id, d.messages + messages, d.topicCount + 1, last, d.topics + [topic])];
  }

  method Accumulate(p: Principal, topics: seq<TopicItem>)
    returns (devices: seq<Device>, userTopics: nat, userMessages: int, latestSeen: Option<string>)
    ensures var seen := Matched(p, topics);
            devices == Table(seen) && userTopics == |seen| && userMessages == Messages(seen) && latestSeen == Latest(seen)
  {
    devices, userTopics, userMessages, latestSeen := [], 0, 0, None;
    var prefix := Normalized(p.prefix);
    for i := 0 to |topics|
      invariant var seen := Matched(p, topics[..i]);
                && devices == Table(seen) && userTopics == |seen|
                && userMessages == Messages(seen) && latestSeen == Latest(seen)
    {
      MatchedMore(p, topics, i);
      ghost var seen := Matched(p, topics[..i]);
      assert seen + [] == seen;
      var topic := Strip(topics[i].topic);
      if topic == "" { continue; }
      if prefix != "" && !InScope(topic, prefix) { continue; }
      if prefix == "" {
        var username := Strip(p.username);
        if username == "" { continue; }
        if !(username + "/" <= topic) { continue; }
      }
      SeenMore(seen, Observe(p, topics[i]));
      userTopics := userTopics + 1;
      userMessages := userMessages + topics[i].messages;
      var at := SeenAt(topics[i].lastSeen);
      if at.Some? && (latestSeen.None? || Less(latestSeen.value, at.value)) { latestSeen := at; }
      devices := Count(devices, InferDevice(topic, prefix), topic, topics[i].messages, at);
    }
    assert topics[..|topics|] == topics;
  }

  method BuildUserItems(principals: seq<Principal>, topics: seq<TopicItem>) returns (out: seq<UserItem>)
    ensures out == Items(principals, topics)
  {
    out := [];
    for i := 0 to |principals|
      invariant out == Items(principals[..i], topics)
    {
      assert principals[..i + 1][..i] == principals[..i];
      var p := principals[i];
      if !IsGenericUser(p) { continue; }
      var devices, userTopics, userMessages, latestSeen := Accumulate(p, topics);
      var rows := Rows(SortById(devices), RateOf(p), userMessages);
      out := out + [UserItem(p, userTopics, userMessages, latestSeen, rows)];
    }
    assert principals[..|principals|] == principals;
  }

  // ---------------------------------------------------------------- whose topic, which device

  function Levels(s: string): seq<string> { Split(s, '/') }

  lemma LevelsAppend(s: string, rest: string)
    ensures Levels(s + "/" + rest) == Levels(s) + Levels(rest)
  {
    JoinSplit(s, '/');
    JoinSplit(rest, '/');
    JoinAppend(Levels(s), Levels(rest), '/');
    SplitJoin(Levels(s) + Levels(rest), '/');
  }

  lemma BelowIsLonger(s: string, t: string)
    requires s + "/" <= t
    ensures Levels(s) < Levels(t)
  {
    LevelsAppend(s, t[|s| + 1..]);
    assert s + "/" + t[|s| + 1..] == t;
  }

  lemma LongerIsBelow(s: string, t: string)
    requires Levels(s) < Levels(t)
    ensures s + "/" <= t
  {
    var a, b := Levels(s), Levels(t);
    JoinSplit(s, '/');
    JoinSplit(t, '/');
    assert b == a + b[|a|..];
    JoinAppend(a, b[|a|..], '/');
    assert t == s + "/" + Join(b[|a|..], '/');
  }

  /** One text covers another when it is that text or stops at one of its slashes: level by level it is a prefix. */
  lemma CoversLevels(s: string, t: string)
    ensures t == s || s + "/" <= t <==> Levels(s) <= Levels(t)
    ensures s + "/" <= t <==> Levels(s) < Levels(t)
  {
    if s + "/" <= t { BelowIsLonger(s, t); }
    if Levels(s) < Levels(t) { LongerIsBelow(s, t); }
    if Levels(s) <= Levels(t) { assert Levels(s) == Levels(t) || Levels(s) < Levels(t); }
    JoinSplit(s, '/');
    JoinSplit(t, '/');
  }

  /** Whatever was around the scope that a prefix was set to is taken off, and once more when topics are compared. */
  function Scope(p: Principal): string { Normalized(Normalized(p.prefix)) }

  /** A user owns what lies in the scope, level by level, or without a prefix what lies below the user's name. */
  predicate OwnedBy(p: Principal, topic: string) {
    && topic != ""
    && if Normalized(p.prefix) != "" then Normalized(topic) != "" && Scope(p) != "" && Levels(Scope(p)) <= Levels(Normalized(topic))
       else Strip(p.username) != "" && Levels(Strip(p.username)) < Levels(topic)
  }

  lemma OwnsExactly(p: Principal, topic: string)
    ensures Owns(p, topic) <==> OwnedBy(p, topic)
  {
    CoversLevels(Scope(p), Normalized(topic));
    CoversLevels(Strip(p.username), topic);
  }

  /** Spaces and then slashes around a topic make no difference. */
  lemma NormalizedIs(a: string, b: string, s: string, c: string, d: string)
    requires (forall x :: x in a + d ==> IsSpace(x)) && (forall x :: x in b + c ==> IsSlash(x))
    requires s != "" && !IsSpace(s[0]) && !IsSlash(s[0]) && !IsSpace(s[|s| - 1]) && !IsSlash(s[|s| - 1])
    ensures Normalized(a + (b + s + c + d)) == s
  {
    var core := b + s + c;
    forall x | x in a || x in d ensures IsSpace(x) { assert x in a + d; }
    forall x | x in b || x in c ensures IsSlash(x) { assert x in b + c; }
    assert core[0] == (if b == "" then s[0] else b[0]) && core[|core| - 1] == if c == "" then s[|s| - 1] else c[|c| - 1];
    assert (b != "" ==> b[0] in b) && (c != "" ==> c[|c| - 1] in c);
    Whole(a, core, d);
    assert b + (s + c) == core;
    TrimLeftDrops(b, s + c, IsSlash);
    TrimRightDrops(s, c, IsSlash);
  }

  lemma Whole(a: string, core: string, d: string)
    requires (forall x :: x in a ==> IsSpace(x)) && (forall x :: x in d ==> IsSpace(x))
    requires core != "" && !IsSpace(core[0]) && !IsSpace(core[|core| - 1])
    ensures Strip(a + (core + d)) == core
  {
    TrimLeftDrops(a, core + d, IsSpace);
    TrimRightDrops(core, d, IsSpace);
  }

  function Titled(level: string): string { if Strip(level) == "" then "root" else Strip(level) }

  lemma EmptyFirst(levels: seq<string>)
    requires |levels| > 1 && levels[0] == ""
    ensures Join(levels, '/') == "/" + Join(levels[1..], '/')
  {}

  /** Empty levels in front are slashes, and are trimmed. */
  lemma {:induction false} EmptyLevels(levels: seq<string>, k: nat)
    requires k < |levels| && levels[k] != "" && (forall l :: l in levels ==> '/' !in l)
    requires forall j :: 0 <= j < k ==> levels[j] == ""
    ensures TrimLeft(Join(levels, '/'), IsSlash) == Join(levels[k..], '/')
    ensures Join(levels[k..], '/') != "" && Join(levels, '/') != ""
    ensures var from := Join(levels[k..], '/'); from[|from| - 1] == Join(levels, '/')[|Join(levels, '/')| - 1]
    decreases k
  {
    if k == 0 {
      assert levels[0..] == levels && levels[0][0] in levels[0];
      assert Join(levels, '/')[0] == levels[0][0];
    } else {
      var rest := Join(levels[1..], '/');
      assert levels[1..][k - 1..] == levels[k..];
      EmptyLevels(levels[1..], k - 1);
      EmptyFirst(levels);
      TrimLeftDrops("/", rest, IsSlash);
    }
  }

  /** What is left of a topic behind its scope names the device with its first level that is not empty. */
  lemma BehindScope(t: string, p: string, k: nat)
    requires Normalized(t) == t && p != "" && Levels(p) <= Levels(t) && |Levels(p)| <= k < |Levels(t)|
    requires Levels(t)[k] != "" && forall j :: |Levels(p)| <= j < k ==> Levels(t)[j] == ""
    ensures |p| < |t| && StripSlashes(t[|p|..]) != "" && Split(StripSlashes(t[|p|..]), '/')[0] == Levels(t)[k]
  {
    var b, n := Levels(t), |Levels(p)|;
    RestBehind(t, p);
    var rest := Join(b[n..], '/');
    TrimLeftDrops("/", rest, IsSlash);
    forall j | 0 <= j < k - n ensures b[n..][j] == "" { assert b[n + j] == ""; }
    forall l | l in b[n..] ensures '/' !in l { assert l in b; }
    EmptyLevels(b[n..], k - n);
    assert b[n..][k - n..] == b[k..];
    EndsNoSlash(t);
    assert t[|t| - 1] == rest[|rest| - 1];
    FirstOfJoin(b, k);
  }

  lemma FirstOfJoin(levels: seq<string>, k: nat)
    requires k < |levels| && forall l :: l in levels ==> '/' !in l
    ensures Split(Join(levels[k..], '/'), '/')[0] == levels[k]
  {
    forall l | l in levels[k..] ensures '/' !in l { assert l in levels; }
    SplitJoin(levels[k..], '/');
  }

  lemma RestBehind(t: string, p: string)
    requires Levels(p) < Levels(t)
    ensures |p| < |t| && t[|p|..] == "/" + Join(Levels(t)[|Levels(p)|..], '/')
  {
    var a, b := Levels(p), Levels(t);
    JoinSplit(p, '/');
    JoinSplit(t, '/');
    var behind := b[|a|..];
    assert b == a + behind;
    JoinAppend(a, behind, '/');
    Behind(p, Join(behind, '/'));
  }

  lemma Behind(p: string, rest: string)
    ensures |p| < |p + ['/'] + rest| && (p + ['/'] + rest)[|p|..] == "/" + rest
  {}

  lemma EndsNoSlash(t: string)
    requires Normalized(t) == t && t != ""
    ensures !IsSlash(t[|t| - 1])
  {
    TrimRightClean(TrimLeft(Strip(t), IsSlash), IsSlash);
  }

  /**
   * The device of a topic: behind the user's scope its first level that is not empty, outside of it the second level, and
   * "root" where there is none. For topics and scopes that are settled: trimming them again changes nothing.
   */
  lemma DeviceIs(topic: string, prefix: string, k: nat)
    requires Normalized(topic) != "" && Normalized(Normalized(topic)) == Normalized(topic)
    requires Normalized(Normalized(prefix)) == Normalized(prefix)
    ensures var t, p := Levels(Normalized(topic)), Levels(Normalized(prefix));
            if Normalized(prefix) != "" && p <= t then
              && (t == p ==> InferDevice(topic, prefix) == "root")
              && (|p| <= k < |t| && t[k] != "" && (forall j :: |p| <= j < k ==> t[j] == "") ==>
                  InferDevice(topic, prefix) == Titled(t[k]))
            else InferDevice(topic, prefix) == if |t| >= 2 then Titled(t[1]) else "root"
  {
    var t, p := Normalized(topic), Normalized(prefix);
    CoversLevels(p, t);
    if p != "" && Levels(p) <= Levels(t) {
      if Levels(t) == Levels(p) {
        JoinSplit(t, '/');
        JoinSplit(p, '/');
        assert t[|p|..] == "";
      }
      if |Levels(p)| <= k < |Levels(t)| && Levels(t)[k] != "" && (forall j :: |Levels(p)| <= j < k ==> Levels(t)[j] == "") {
        BehindScope(t, p, k);
      }
    }
  }

  // ---------------------------------------------------------------- whose items

  predicate Generic(p: Principal) {
    ComposeFile.Lower(Strip(p.kind)) == "generic_user" || "generic:" <= ComposeFile.Lower(Strip(p.identity))
  }

  function GenericsBefore(principals: seq<Principal>, n: nat): set<int>
    requires n <= |principals|
  {
    set i | 0 <= i < n && Generic(principals[i])
  }

  /** There is one item for each generic user. */
  lemma {:induction false} ItemsCount(principals: seq<Principal>, topics: seq<TopicItem>)
    ensures |Items(principals, topics)| == |GenericsBefore(principals, |principals|)|
    decreases |principals|
  {
    if principals != [] {
      var n := |principals| - 1;
      ItemsCount(principals[..n], topics);
      SameBefore(principals, n, n);
      OneMoreGeneric(principals, n);
    }
  }

  lemma EarlierItem(principals: seq<Principal>, topics: seq<TopicItem>, n: nat, k: nat)
    requires |principals| == n + 1 && k < |Items(principals[..n], topics)|
    ensures k < |Items(principals, topics)| && Items(principals, topics)[k] == Items(principals[..n], topics)[k]
  {}

  lemma LastItem(principals: seq<Principal>, topics: seq<TopicItem>, n: nat)
    requires |principals| == n + 1 && Generic(principals[n])
    ensures var k := |Items(principals[..n], topics)|;
            k < |Items(principals, topics)| && Items(principals, topics)[k] == Breakdown(principals[n], topics)
  {
    assert Items(principals, topics) == Items(principals[..n], topics) + [Breakdown(principals[n], topics)];
  }

  /** And they come in the order of the users. */
  lemma {:induction false} ItemAt(principals: seq<Principal>, topics: seq<TopicItem>, i: nat)
    requires i < |principals| && Generic(principals[i])
    ensures var k := |GenericsBefore(principals, i)|;
            k < |Items(principals, topics)| && Items(principals, topics)[k] == Breakdown(principals[i], topics)
    decreases |principals|
  {
    var n := |principals| - 1;
    SameBefore(principals, n, i);
    if i < n {
      assert principals[..n][i] == principals[i];
      ItemAt(principals[..n], topics, i);
      EarlierItem(principals, topics, n, |GenericsBefore(principals, i)|);
    } else {
      ItemsCount(principals[..n], topics);
      LastItem(principals, topics, n);
    }
  }

  lemma SameBefore(principals: seq<Principal>, n: nat, i: nat)
    requires i <= n <= |principals|
    ensures GenericsBefore(principals[..n], i) == GenericsBefore(principals, i)
  {}

  lemma OneMoreGeneric(principals: seq<Principal>, n: nat)
    requires n < |principals|
    ensures |GenericsBefore(principals, n + 1)| == |GenericsBefore(principals, n)| + if Generic(principals[n]) then 1 else 0
  {
    assert GenericsBefore(principals, n + 1) == GenericsBefore(principals, n) + if Generic(principals[n]) then {n} else {};
  }

  /** And each counts the topics its user owns. */
  lemma {:induction false} CountsOwned(p: Principal, items: seq<TopicItem>)
    ensures |Matched(p, items)| == |OwnedBefore(p, items, |items|)| == Breakdown(p, items).topicCount
    decreases |items|
  {
    if items != [] {
      var n := |items| - 1;
      CountsOwned(p, items[..n]);
      OwnsExactly(p, Strip(items[n].topic));
      OneMoreOwned(p, items, n);
    }
  }

  lemma OneMoreOwned(p: Principal, items: seq<TopicItem>, n: nat)
    requires n < |items|
    ensures |OwnedBefore(p, items, n + 1)| == |OwnedBefore(p, items[..n], n)| + if OwnedBy(p, Strip(items[n].topic)) then 1 else 0
  {
    assert OwnedBefore(p, items[..n], n) == OwnedBefore(p, items, n);
    assert OwnedBefore(p, items, n + 1) == OwnedBefore(p, items, n) + if OwnedBy(p, Strip(items[n].topic)) then {n} else {};
  }

  function OwnedBefore(p: Principal, items: seq<TopicItem>, n: nat): set<int>
    requires n <= |items|
  {
    set i | 0 <= i < n && OwnedBy(p, Strip(items[i].topic))
  }

  ghost predicate SeenFrom(p: Principal, items: seq<TopicItem>, s: Seen) {
    exists item :: item in items && OwnedBy(p, Strip(item.topic)) && s == Observe(p, item)
  }

  lemma {:induction false} SeenAre(p: Principal, items: seq<TopicItem>, s: Seen)
    ensures s in Matched(p, items) <==> SeenFrom(p, items, s)
    decreases |items|
  {
    if items != [] {
      var n := |items| - 1;
      SeenAre(p, items[..n], s);
      OwnsExactly(p, Strip(items[n].topic));
      LastSeen(p, items, s);
      LastFrom(p, items, s);
    }
  }

  lemma LastSeen(p: Principal, items: seq<TopicItem>, s: Seen)
    requires items != []
    ensures var n := |items| - 1;
            s in Matched(p, items)
            <==> (Owns(p, Strip(items[n].topic)) && s == Observe(p, items[n])) || s in Matched(p, items[..n])
  {}

  lemma LastFrom(p: Principal, items: seq<TopicItem>, s: Seen)
    requires items != []
    ensures var n := |items| - 1;
            SeenFrom(p, items, s)
            <==> (OwnedBy(p, Strip(items[n].topic)) && s == Observe(p, items[n])) || SeenFrom(p, items[..n], s)
  {
    var n := |items| - 1;
    assert forall item :: item in items <==> item == items[n] || item in items[..n];
  }

  /** None of them has a time, or it is the time of one of them and none has a later one. */
  predicate LatestOf(seen: seq<Seen>, at: Option<string>) {
    match at
    case None => forall s :: s in seen ==> s.at.None?
    case Some(t) => (exists s :: s in seen && s.at == at) && forall s :: s in seen && s.at.Some? ==> !Less(t, s.at.value)
  }

  lemma {:induction false} LatestIsLatest(seen: seq<Seen>)
    ensures LatestOf(seen, Latest(seen))
    decreases |seen|
  {
    if seen != [] {
      var n := |seen| - 1;
      LatestIsLatest(seen[..n]);
      LaterIsLatest(seen[..n], seen[n], Latest(seen[..n]));
      assert seen == seen[..n] + [seen[n]];
    }
  }

  lemma LaterIsLatest(seen: seq<Seen>, last: Seen, at: Option<string>)
    requires LatestOf(seen, at)
    ensures LatestOf(seen + [last], Later(at, last.at))
  {
    assert forall s :: s in seen + [last] <==> s in seen || s == last;
    if last.at.Some? { LessTotal(last.at.value, last.at.value); }
    if at.Some? && last.at.Some? && Less(at.value, last.at.value) {
      forall s | s in seen && s.at.Some? ensures !Less(last.at.value, s.at.value) {
        if Less(last.at.value, s.at.value) { LessTransitive(at.value, last.at.value, s.at.value); }
      }
    }
  }

  /** A topic of the user's with a time. */
  predicate Timed(p: Principal, item: TopicItem) { OwnedBy(p, Strip(item.topic)) && Strip(item.lastSeen) != "" }

  /** The time last observed is the latest among the user's topics that have one, and none if none has. */
  lemma LatestExactly(p: Principal, items: seq<TopicItem>)
    ensures var at := Breakdown(p, items).lastObserved;
            if at.None? then forall item :: item in items ==> !Timed(p, item)
            else && (exists item :: item in items && Timed(p, item) && Strip(item.lastSeen) == at.value)
                 && forall item :: item in items && Timed(p, item) ==> !Less(at.value, Strip(item.lastSeen))
  {
    var seen := Matched(p, items);
    LatestIsLatest(seen);
    forall item | item in items && OwnedBy(p, Strip(item.topic)) ensures Observe(p, item) in seen {
      SeenAre(p, items, Observe(p, item));
    }
    if Latest(seen).Some? {
      var s :| s in seen && s.at == Latest(seen);
      SeenAre(p, items, s);
    }
  }
}
