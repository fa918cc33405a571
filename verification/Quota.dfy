/**
 Which pods the operator joins, and how many of them as voters.
 */
module Quota {
  import opened Names

  datatype Pod = Pod(name: string, hostIP: string, nodeName: string, addr: string, ready: bool)

  datatype Row = Row(id: string, address: string)

  // A call of Joiner.Join the pass makes.
  datatype JoinCall = JoinCall(pod: Pod, index: nat, observer: bool)

  const GRPC_PORT := ":7947"

  function MemberAddr(p: Pod): string {
    if p.hostIP == "" then "" else p.hostIP + GRPC_PORT
  }

  function JoinAddr(p: Pod): string {
    if p.addr != "" then p.addr else MemberAddr(p)
  }

  predicate RowIsPod(m: Row, p: Pod) {
    || (p.nodeName != "" && m.id == p.nodeName)
    || (JoinAddr(p) != "" && m.address != "" && (m.address == JoinAddr(p) || m.address == p.hostIP))
  }

  predicate AlreadyMember(rows: seq<Row>, p: Pod) {
    exists i :: 0 <= i < |rows| && RowIsPod(rows[i], p)
  }

  method AlreadyMemberScan(rows: seq<Row>, p: Pod) returns (found: bool)
    ensures found <==> AlreadyMember(rows, p)
  {
    var addr := JoinAddr(p);
    for i := 0 to |rows|
      invariant forall k :: 0 <= k < i ==> !RowIsPod(rows[k], p)
    {
      var m := rows[i];
      if p.nodeName != "" && m.id == p.nodeName {
        return true;
      }
      if addr != "" && m.address != "" && (m.address == addr || m.address == p.hostIP) {
        return true;
      }
    }
    return false;
  }

  // Whom a row is: the pod it was joined as, by node or by the address it was joined at,
  // and a row that shares neither its node nor an address is someone else.
  lemma MembersAreKnown(rows: seq<Row>, p: Pod)
    ensures (exists k :: 0 <= k < |rows| && p.nodeName != "" && rows[k].id == p.nodeName) ==> AlreadyMember(rows, p)
    ensures p.addr != "" && (exists k :: 0 <= k < |rows| && rows[k].address == p.addr) ==> AlreadyMember(rows, p)
    ensures p.hostIP != "" && (exists k :: 0 <= k < |rows| && rows[k].address == p.hostIP) ==> AlreadyMember(rows, p)
    ensures p.hostIP != "" && p.addr == "" && (exists k :: 0 <= k < |rows| && rows[k].address == p.hostIP + ":7947") ==>
              AlreadyMember(rows, p)
    ensures (forall k :: 0 <= k < |rows| ==>
               && (p.nodeName == "" || rows[k].id != p.nodeName)
               && (rows[k].address == "" || (rows[k].address != p.addr && rows[k].address != p.hostIP
                                             && rows[k].address != p.hostIP + ":7947"))) ==> !AlreadyMember(rows, p)
  {
    forall k | 0 <= k < |rows| && (
        || (p.nodeName != "" && rows[k].id == p.nodeName)
        || (p.addr != "" && rows[k].address == p.addr)
        || (p.hostIP != "" && rows[k].address == p.hostIP)
        || (p.hostIP != "" && p.addr == "" && rows[k].address == p.hostIP + ":7947"))
      ensures RowIsPod(rows[k], p)
    {
    }
  }

  // Unicode white space, as strings.TrimSpace reads it.
  predicate IsSpace(c: char) {
    var u := c as int;
    || 0x09 <= u <= 0x0d || u == 0x20 || u == 0x85 || u == 0xa0 || u == 0x1680
    || 0x2000 <= u <= 0x200a || u == 0x2028 || u == 0x2029 || u == 0x202f || u == 0x205f || u == 0x3000
  }

  function TrimLeft(s: string): string {
    if s != [] && IsSpace(s[0]) then TrimLeft(s[1..]) else s
  }

  function TrimRight(s: string): string {
    if s != [] && IsSpace(s[|s| - 1]) then TrimRight(s[..|s| - 1]) else s
  }

  function Trim(s: string): string {
    TrimRight(TrimLeft(s))
  }

  predicate AllSpace(s: string) {
    forall i :: 0 <= i < |s| ==> IsSpace(s[i])
  }

  // No white space at either end.
  predicate Trimmed(s: string) {
    s == "" || (!IsSpace(s[0]) && !IsSpace(s[|s| - 1]))
  }

  lemma {:induction false} TrimLeftKeeps(s: string) returns (pre: string)
    ensures s == pre + TrimLeft(s) && AllSpace(pre) && (TrimLeft(s) == "" || !IsSpace(TrimLeft(s)[0]))
    decreases |s|
  {
    if s != [] && IsSpace(s[0]) {
      var rest := TrimLeftKeeps(s[1..]);
      pre := [s[0]] + rest;
    } else {
      pre := [];
    }
  }

  lemma {:induction false} TrimRightKeeps(s: string) returns (post: string)
    ensures s == TrimRight(s) + post && AllSpace(post)
    ensures TrimRight(s) == "" || (!IsSpace(TrimRight(s)[|TrimRight(s)| - 1]) && TrimRight(s)[0] == s[0])
    decreases |s|
  {
    if s != [] && IsSpace(s[|s| - 1]) {
      var rest := TrimRightKeeps(s[..|s| - 1]);
      post := rest + [s[|s| - 1]];
    } else {
      post := [];
    }
  }

  // Trimming takes white space off both ends, all of it and nothing else.
  lemma TrimKeeps(s: string) returns (pre: string, post: string)
    ensures s == pre + Trim(s) + post && AllSpace(pre) && AllSpace(post) && Trimmed(Trim(s))
  {
    pre := TrimLeftKeeps(s);
    post := TrimRightKeeps(TrimLeft(s));
  }

  method DropSet(ids: seq<string>) returns (out: set<string>)
    ensures out == set id | id in ids && Trim(id) != "" :: Trim(id)
  {
    out := {};
    for i := 0 to |ids|
      invariant out == set id | id in ids[..i] && Trim(id) != "" :: Trim(id)
    {
      assert ids[..i + 1] == ids[..i] + [ids[i]];
      var id := Trim(ids[i]);
      if id != "" {
        out := out + {id};
      }
    }
    assert ids[..|ids|] == ids;
  }

  predicate IsDigit(c: char) {
    '0' <= c <= '9'
  }

  function DigitsValue(s: string): int {
    if s == [] then 0 else DigitsValue(s[..|s| - 1]) * 10 + (s[|s| - 1] as int - '0' as int)
  }

  function LastDash(name: string): (k: int)
    ensures -1 <= k < |name|
  {
    if name == [] then -1
    else if name[|name| - 1] == '-' then |name| - 1
    else LastDash(name[..|name| - 1])
  }

  predicate AllDigits(s: string) {
    forall k :: 0 <= k < |s| ==> IsDigit(s[k])
  }

  // strconv.Atoi, -1 standing for its error.
  function ReadNumber(tail: string): int
    requires tail != []
  {
    var digits := if tail[0] == '+' then tail[1..] else tail;
    if digits == [] || !AllDigits(digits) then -1
    else if DigitsValue(digits) > 0x7fff_ffff_ffff_ffff then -1
    else DigitsValue(digits)
  }

  function PodOrdinal(name: string): int {
    var i := LastDash(name);
    if i < 0 || i + 1 >= |name| then -1 else ReadNumber(name[i + 1..])
  }

  function Decimal(n: nat): string {
    if n < 10 then [('0' as int + n) as char] else Decimal(n / 10) + [('0' as int + n % 10) as char]
  }

  lemma {:induction false} DecimalReads(n: nat)
    ensures Decimal(n) != [] && DigitsValue(Decimal(n)) == n
    ensures forall k :: 0 <= k < |Decimal(n)| ==> IsDigit(Decimal(n)[k])
    decreases n
  {
    if n >= 10 {
      DecimalReads(n / 10);
      assert Decimal(n)[..|Decimal(n)| - 1] == Decimal(n / 10);
    } else {
      assert Decimal(n)[..0] == [];
    }
  }

  lemma {:induction false} LastDashOf(name: string, tail: string)
    requires forall k :: 0 <= k < |tail| ==> tail[k] != '-'
    ensures LastDash(name + "-" + tail) == |name|
    decreases |tail|
  {
    var s := name + "-" + tail;
    if tail == [] {
      assert s[|s| - 1] == '-';
    } else {
      var k := |tail| - 1;
      LastDashOf(name, tail[..k]);
      assert s[..|s| - 1] == name + "-" + tail[..k];
    }
  }

  // The ordinal of a StatefulSet pod is the number its name ends in, whatever the set is
  // called.
  lemma PodOrdinalReads(owner: string, n: nat)
    requires n <= 0x7fff_ffff_ffff_ffff
    ensures PodOrdinal(owner + "-" + Decimal(n)) == n
  {
    DecimalReads(n);
    LastDashOf(owner, Decimal(n));
    var name := owner + "-" + Decimal(n);
    assert name[|owner| + 1..] == Decimal(n);
  }

  // Not a decimal number, with or without a plus sign.
  predicate NotNumber(tail: string) {
    || tail == "" || tail == "+"
    || exists k :: (if tail[0] == '+' then 1 else 0) <= k < |tail| && !IsDigit(tail[k])
  }

  lemma ReadNeedsNumber(tail: string)
    requires tail != [] && NotNumber(tail)
    ensures ReadNumber(tail) == -1
  {
    if tail != "+" {
      var k :| (if tail[0] == '+' then 1 else 0) <= k < |tail| && !IsDigit(tail[k]);
      if tail[0] == '+' {
        assert tail[1..][k - 1] == tail[k] && !AllDigits(tail[1..]);
      } else {
        assert !AllDigits(tail);
      }
    }
  }

  // A name without a number after its last dash has none.
  lemma PodOrdinalNeedsNumber(owner: string, tail: string)
    requires (forall k :: 0 <= k < |tail| ==> tail[k] != '-') && NotNumber(tail)
    ensures PodOrdinal(owner + "-" + tail) == -1
  {
    LastDashOf(owner, tail);
    var name := owner + "-" + tail;
    assert name[|owner| + 1..] == tail;
    if tail != "" {
      ReadNeedsNumber(tail);
    }
  }

  function MemberObserver(dsIndex: int, voterCount: int): bool {
    voterCount < 1 || dsIndex + 2 > voterCount
  }

  // The sidecar loop over pods, every call succeeding.
  function SidecarJoins(ordinal: string -> int, pods: seq<Pod>, drop: set<string>, rows: seq<Row>, voterCount: int)
    : seq<JoinCall>
  {
    if pods == [] then []
    else
      var before, p := SidecarJoins(ordinal, pods[..|pods| - 1], drop, rows, voterCount), pods[|pods| - 1];
      var ord := ordinal(p.name);
      if ord <= 0 || !p.ready || p.nodeName in drop || AlreadyMember(rows, p) then before
      else before + [JoinCall(p, ord, MemberObserver(ord - 1, voterCount))]
  }

  // The loop as run: it stops at the first call that fails (none when failAt is large).
  method SidecarJoinLoop(pods: seq<Pod>, drop: set<string>, rows: seq<Row>, voterCount: int, failAt: nat)
    returns (calls: seq<JoinCall>)
    ensures calls <= SidecarJoins(PodOrdinal, pods, drop, rows, voterCount)
    ensures |calls| <= failAt ==> calls == SidecarJoins(PodOrdinal, pods, drop, rows, voterCount)
  {
    calls := [];
    for i := 0 to |pods|
      invariant calls == SidecarJoins(PodOrdinal, pods[..i], drop, rows, voterCount)
      invariant |calls| <= failAt
    {
      var p := pods[i];
      assert pods[..i + 1][..i] == pods[..i];
      var ord := PodOrdinal(p.name);
      if ord <= 0 {
        continue;
      }
      if !p.ready {
        continue;
      }
      if p.nodeName in drop {
        continue;
      }
      var known := AlreadyMemberScan(rows, p);
      if known {
        continue;
      }
      calls := calls + [JoinCall(p, ord, MemberObserver(ord - 1, voterCount))];
      if |calls| > failAt {
        SidecarPrefix(PodOrdinal, pods, i + 1, drop, rows, voterCount);
        return;
      }
    }
    assert pods[..|pods|] == pods;
  }

  lemma {:induction false} SidecarPrefix(ordinal: string -> int, pods: seq<Pod>, k: nat, drop: set<string>,
                                         rows: seq<Row>, voterCount: int)
    requires k <= |pods|
    ensures SidecarJoins(ordinal, pods[..k], drop, rows, voterCount)
         <= SidecarJoins(ordinal, pods, drop, rows, voterCount)
    decreases |pods|
  {
    if k == |pods| {
      assert pods[..k] == pods;
    } else {
      SidecarPrefix(ordinal, pods[..|pods| - 1], k, drop, rows, voterCount);
      assert pods[..|pods| - 1][..k] == pods[..k];
    }
  }

  // The DaemonSet loop: the index is the position in the pod list sorted by name.
  function DaemonJoins(pods: seq<Pod>, drop: set<string>, rows: seq<Row>, voterCount: int): seq<JoinCall> {
    if pods == [] then []
    else
      var i := |pods| - 1;
      var before, p := DaemonJoins(pods[..i], drop, rows, voterCount), pods[i];
      if p.hostIP == "" || !p.ready || p.nodeName in drop || AlreadyMember(rows, p) then before
      else before + [JoinCall(p, i, MemberObserver(i, voterCount))]
  }

  // The DaemonSet loop as run.
  method DaemonJoinLoop(pods: seq<Pod>, drop: set<string>, rows: seq<Row>, voterCount: int, failAt: nat)
    returns (calls: seq<JoinCall>)
    ensures calls <= DaemonJoins(pods, drop, rows, voterCount)
    ensures |calls| <= failAt ==> calls == DaemonJoins(pods, drop, rows, voterCount)
  {
    calls := [];
    for i := 0 to |pods|
      invariant calls == DaemonJoins(pods[..i], drop, rows, voterCount)
      invariant |calls| <= failAt
    {
      var p := pods[i];
      assert pods[..i + 1][..i] == pods[..i];
      if p.hostIP == "" || !p.ready {
        continue;
      }
      if p.nodeName in drop {
        continue;
      }
      var known := AlreadyMemberScan(rows, p);
      if known {
        continue;
      }
      calls := calls + [JoinCall(p, i, MemberObserver(i, voterCount))];
      if |calls| > failAt {
        DaemonPrefix(pods, i + 1, drop, rows, voterCount);
        return;
      }
    }
    assert pods[..|pods|] == pods;
  }

  lemma {:induction false} DaemonPrefix(pods: seq<Pod>, k: nat, drop: set<string>, rows: seq<Row>, voterCount: int)
    requires k <= |pods|
    ensures DaemonJoins(pods[..k], drop, rows, voterCount) <= DaemonJoins(pods, drop, rows, voterCount)
    decreases |pods|
  {
    if k == |pods| {
      assert pods[..k] == pods;
    } else {
      DaemonPrefix(pods[..|pods| - 1], k, drop, rows, voterCount);
      assert pods[..|pods| - 1][..k] == pods[..k];
    }
  }

  // What one pass asks for, whichever call fails.
  ghost predicate CallFits(c: JoinCall, pods: seq<Pod>, drop: set<string>, rows: seq<Row>) {
    c.pod in pods && c.pod.ready && c.pod.nodeName !in drop && !AlreadyMember(rows, c.pod)
  }

  lemma {:induction false} SidecarCallsFit(ordinal: string -> int, pods: seq<Pod>, drop: set<string>,
                                           rows: seq<Row>, voterCount: int)
    ensures forall c :: c in SidecarJoins(ordinal, pods, drop, rows, voterCount) ==>
              CallFits(c, pods, drop, rows) && c.index == ordinal(c.pod.name) && c.index >= 1
              && c.observer == MemberObserver(c.index - 1, voterCount)
    decreases |pods|
  {
    if pods != [] {
      var before, p := pods[..|pods| - 1], pods[|pods| - 1];
      SidecarCallsFit(ordinal, before, drop, rows, voterCount);
      assert pods == before + [p];
    }
  }

  lemma {:induction false} DaemonCallsFit(pods: seq<Pod>, drop: set<string>, rows: seq<Row>, voterCount: int)
    ensures forall c :: c in DaemonJoins(pods, drop, rows, voterCount) ==>
              CallFits(c, pods, drop, rows) && c.index < |pods| && pods[c.index] == c.pod
              && c.observer == MemberObserver(c.index, voterCount)
    decreases |pods|
  {
    if pods != [] {
      var before, p := pods[..|pods| - 1], pods[|pods| - 1];
      DaemonCallsFit(before, drop, rows, voterCount);
      assert pods == before + [p];
    }
  }

  // One pass: what it saw, and how many of its calls it got to make.
  datatype Pass = Pass(pods: seq<Pod>, drop: set<string>, rows: seq<Row>, made: nat)

  function SidecarCalls(ordinal: string -> int, p: Pass, voterCount: int): seq<JoinCall> {
    var all := SidecarJoins(ordinal, p.pods, p.drop, p.rows, voterCount);
    if p.made < |all| then all[..p.made] else all
  }

  function DaemonCalls(p: Pass, voterCount: int): seq<JoinCall> {
    var all := DaemonJoins(p.pods, p.drop, p.rows, voterCount);
    if p.made < |all| then all[..p.made] else all
  }

  // The ordinals (or list positions) ever joined as voters.
  ghost function SidecarVoters(ordinal: string -> int, passes: seq<Pass>, voterCount: int): set<nat> {
    if passes == [] then {}
    else
      var calls := SidecarCalls(ordinal, passes[|passes| - 1], voterCount);
      SidecarVoters(ordinal, passes[..|passes| - 1], voterCount) + set c | c in calls && !c.observer :: c.index
  }

  ghost function DaemonVoters(passes: seq<Pass>, voterCount: int): set<string> {
    if passes == [] then {}
    else
      var calls := DaemonCalls(passes[|passes| - 1], voterCount);
      DaemonVoters(passes[..|passes| - 1], voterCount) + set c | c in calls && !c.observer :: c.pod.name
  }

  function Below(n: nat): (s: set<nat>)
    ensures |s| == n && forall k: nat :: k in s <==> k < n
  {
    if n == 0 then {} else Below(n - 1) + {n - 1}
  }

  lemma SubsetSize<T>(a: set<T>, b: set<T>)
    requires a <= b
    ensures |a| <= |b|
  {
    assert b == a + (b - a);
  }

  lemma {:induction false} SidecarVotersInRange(ordinal: string -> int, passes: seq<Pass>, voterCount: int)
    ensures forall n :: n in SidecarVoters(ordinal, passes, voterCount) ==> 1 <= n < voterCount
    decreases |passes|
  {
    if passes != [] {
      var p := passes[|passes| - 1];
      SidecarVotersInRange(ordinal, passes[..|passes| - 1], voterCount);
      SidecarCallsFit(ordinal, p.pods, p.drop, p.rows, voterCount);
      assert forall c :: c in SidecarCalls(ordinal, p, voterCount) ==>
          c in SidecarJoins(ordinal, p.pods, p.drop, p.rows, voterCount);
    }
  }

  // Sidecar quota (a pass goes no further with a voterCount below 1): over any passes,
  // whatever each saw and wherever each stopped, at most voterCount - 1 ordinals are
  // ever joined as voters (the seed is the other one).
  lemma SidecarVoterQuota(ordinal: string -> int, passes: seq<Pass>, voterCount: int)
    requires voterCount >= 1
    ensures |SidecarVoters(ordinal, passes, voterCount)| <= voterCount - 1
  {
    SidecarVotersInRange(ordinal, passes, voterCount);
    var all := Below(voterCount) - {0};
    assert SidecarVoters(ordinal, passes, voterCount) <= all;
    SubsetSize(SidecarVoters(ordinal, passes, voterCount), all);
  }

  // A loop that makes a call, or none, at each position.
  datatype Slot = Skip | Make(c: JoinCall)

  function Made(slots: seq<Slot>): seq<JoinCall> {
    if slots == [] then []
    else
      var before, last := Made(slots[..|slots| - 1]), slots[|slots| - 1];
      if last.Make? then before + [last.c] else before
  }

  // How many calls come before position i.
  function MadeBefore(slots: seq<Slot>, i: nat): nat
    requires i <= |slots|
  {
    if i == 0 then 0 else MadeBefore(slots, i - 1) + (if slots[i - 1].Make? then 1 else 0)
  }

  lemma MadeGrows(slots: seq<Slot>, k: nat)
    requires k < |slots|
    ensures Made(slots[..k + 1]) == Made(slots[..k]) + (if slots[k].Make? then [slots[k].c] else [])
  {
    assert slots[..k + 1][..k] == slots[..k];
  }

  lemma {:induction false} MadeCount(slots: seq<Slot>, k: nat)
    requires k <= |slots|
    ensures |Made(slots[..k])| == MadeBefore(slots, k)
    decreases k
  {
    if k > 0 {
      MadeCount(slots, k - 1);
      MadeGrows(slots, k - 1);
    }
  }

  // The call of position i is the one after those before it.
  lemma {:induction false} MadeAt(slots: seq<Slot>, k: nat, i: nat)
    requires i < k <= |slots| && slots[i].Make?
    ensures MadeBefore(slots, i) < |Made(slots[..k])| && Made(slots[..k])[MadeBefore(slots, i)] == slots[i].c
    decreases k
  {
    MadeGrows(slots, k - 1);
    MadeCount(slots, k - 1);
    if i < k - 1 {
      MadeAt(slots, k - 1, i);
    }
  }

  // Every call is some position's.
  lemma {:induction false} MadeFrom(slots: seq<Slot>, k: nat, j: nat) returns (i: nat)
    requires k <= |slots| && j < MadeBefore(slots, k)
    ensures i < k && slots[i].Make? && MadeBefore(slots, i) == j
    decreases k
  {
    if j == MadeBefore(slots, k - 1) {
      i := k - 1;
    } else {
      i := MadeFrom(slots, k - 1, j);
    }
  }

  // Cutting the calls short leaves those of the positions reached before.
  lemma MadeUpTo(slots: seq<Slot>, made: nat, calls: seq<JoinCall>, c: JoinCall)
    requires calls == if made < |Made(slots)| then Made(slots)[..made] else Made(slots)
    ensures c in calls <==> exists i :: 0 <= i < |slots| && slots[i] == Make(c) && MadeBefore(slots, i) < made
    ensures forall i :: 0 <= i < |slots| && slots[i].Make? && MadeBefore(slots, i) < made ==>
              MadeBefore(slots, i) < |calls| && calls[MadeBefore(slots, i)] == slots[i].c
  {
    var n := |slots|;
    assert slots[..n] == slots;
    MadeCount(slots, n);
    forall i | 0 <= i < n && slots[i].Make? && MadeBefore(slots, i) < made
      ensures MadeBefore(slots, i) < |calls| && calls[MadeBefore(slots, i)] == slots[i].c
    {
      MadeAt(slots, n, i);
    }
    if c in calls {
      var j :| 0 <= j < |calls| && calls[j] == c;
      var i := MadeFrom(slots, n, j);
      MadeAt(slots, n, i);
    }
  }

  // What the sidecar loop does with a pod: only one with an ordinal of at least 1, ready,
  // not leaving and not a member is joined, from ordinal voterCount on as an observer.
  function SidecarSlot(ordinal: string -> int, pod: Pod, drop: set<string>, rows: seq<Row>, voterCount: int): Slot {
    var ord := ordinal(pod.name);
    if ord >= 1 && pod.ready && pod.nodeName !in drop && !AlreadyMember(rows, pod)
    then Make(JoinCall(pod, ord, voterCount <= ord))
    else Skip
  }

  function SidecarSlots(ordinal: string -> int, p: Pass, voterCount: int): (slots: seq<Slot>)
    ensures |slots| == |p.pods|
  {
    seq(|p.pods|, i requires 0 <= i < |p.pods| => SidecarSlot(ordinal, p.pods[i], p.drop, p.rows, voterCount))
  }

  lemma SidecarJoinsGrow(ordinal: string -> int, pods: seq<Pod>, pod: Pod, drop: set<string>, rows: seq<Row>,
                         voterCount: int)
    ensures var slot := SidecarSlot(ordinal, pod, drop, rows, voterCount);
            SidecarJoins(ordinal, pods + [pod], drop, rows, voterCount)
            == SidecarJoins(ordinal, pods, drop, rows, voterCount) + (if slot.Make? then [slot.c] else [])
  {
    assert (pods + [pod])[..|pods|] == pods;
  }

  lemma {:induction false} SidecarJoinsAreMade(ordinal: string -> int, p: Pass, voterCount: int, k: nat)
    requires k <= |p.pods|
    ensures SidecarJoins(ordinal, p.pods[..k], p.drop, p.rows, voterCount)
         == Made(SidecarSlots(ordinal, p, voterCount)[..k])
    decreases k
  {
    if k > 0 {
      SidecarJoinsAreMade(ordinal, p, voterCount, k - 1);
      var slots := SidecarSlots(ordinal, p, voterCount);
      MadeGrows(slots, k - 1);
      SidecarJoinsGrowAt(ordinal, p, voterCount, k - 1, slots[k - 1]);
    }
  }

  lemma SidecarJoinsGrowAt(ordinal: string -> int, p: Pass, voterCount: int, k: nat, slot: Slot)
    requires k < |p.pods| && slot == SidecarSlots(ordinal, p, voterCount)[k]
    ensures SidecarJoins(ordinal, p.pods[..k + 1], p.drop, p.rows, voterCount)
         == SidecarJoins(ordinal, p.pods[..k], p.drop, p.rows, voterCount) + (if slot.Make? then [slot.c] else [])
  {
    SidecarJoinsGrow(ordinal, p.pods[..k], p.pods[k], p.drop, p.rows, voterCount);
    assert p.pods[..k + 1] == p.pods[..k] + [p.pods[k]];
  }

  // The pass gets as far as the call c of position i.
  predicate SidecarReaches(ordinal: string -> int, p: Pass, voterCount: int, i: nat, c: JoinCall) {
    var slots := SidecarSlots(ordinal, p, voterCount);
    i < |p.pods| && slots[i] == Make(c) && MadeBefore(slots, i) < p.made
  }

  // A sidecar pass makes exactly the calls of the positions it reaches before its first
  // failure, in list order.
  lemma SidecarCallsAre(ordinal: string -> int, p: Pass, voterCount: int, c: JoinCall)
    ensures c in SidecarCalls(ordinal, p, voterCount)
       <==> exists i :: 0 <= i < |p.pods| && SidecarReaches(ordinal, p, voterCount, i, c)
    ensures var slots, calls := SidecarSlots(ordinal, p, voterCount), SidecarCalls(ordinal, p, voterCount);
            forall i :: 0 <= i < |p.pods| && slots[i].Make? && MadeBefore(slots, i) < p.made ==>
              MadeBefore(slots, i) < |calls| && calls[MadeBefore(slots, i)] == slots[i].c
  {
    var n, slots, calls := |p.pods|, SidecarSlots(ordinal, p, voterCount), SidecarCalls(ordinal, p, voterCount);
    SidecarJoinsAreMade(ordinal, p, voterCount, n);
    assert p.pods[..n] == p.pods && slots[..n] == slots;
    MadeUpTo(slots, p.made, calls, c);
    if c in calls {
      var i :| 0 <= i < n && slots[i] == Make(c) && MadeBefore(slots, i) < p.made;
      assert SidecarReaches(ordinal, p, voterCount, i, c);
    }
  }

  // The ordinals below voterCount a pass reached.
  function SidecarHeads(ordinal: string -> int, p: Pass, voterCount: int): set<nat> {
    var slots := SidecarSlots(ordinal, p, voterCount);
    set i | 0 <= i < |slots| && slots[i].Make? && MadeBefore(slots, i) < p.made && slots[i].c.index < voterCount ::
      slots[i].c.index
  }

  function AllSidecarHeads(ordinal: string -> int, passes: seq<Pass>, voterCount: int): set<nat> {
    if passes == [] then {}
    else
      AllSidecarHeads(ordinal, passes[..|passes| - 1], voterCount)
      + SidecarHeads(ordinal, passes[|passes| - 1], voterCount)
  }

  lemma SlotObserver(ordinal: string -> int, p: Pass, voterCount: int, i: nat)
    requires i < |p.pods| && SidecarSlots(ordinal, p, voterCount)[i].Make?
    ensures var c := SidecarSlots(ordinal, p, voterCount)[i].c; c.observer <==> voterCount <= c.index
  {
  }

  lemma SidecarPassVoters(ordinal: string -> int, p: Pass, voterCount: int)
    ensures (set c | c in SidecarCalls(ordinal, p, voterCount) && !c.observer :: c.index)
         == SidecarHeads(ordinal, p, voterCount)
  {
    var calls, slots := SidecarCalls(ordinal, p, voterCount), SidecarSlots(ordinal, p, voterCount);
    forall c | c in calls && !c.observer
      ensures c.index in SidecarHeads(ordinal, p, voterCount)
    {
      SidecarCallsAre(ordinal, p, voterCount, c);
      var i :| 0 <= i < |p.pods| && SidecarReaches(ordinal, p, voterCount, i, c);
      SlotObserver(ordinal, p, voterCount, i);
    }
    forall n | n in SidecarHeads(ordinal, p, voterCount)
      ensures n in set c | c in calls && !c.observer :: c.index
    {
      var i :| 0 <= i < |slots| && slots[i].Make? && MadeBefore(slots, i) < p.made && slots[i].c.index < voterCount
            && slots[i].c.index == n;
      SlotObserver(ordinal, p, voterCount, i);
      SidecarCallsAre(ordinal, p, voterCount, slots[i].c);
      assert SidecarReaches(ordinal, p, voterCount, i, slots[i].c);
      assert slots[i].c in calls && !slots[i].c.observer;
    }
  }

  // Sidecar voters, for any passes: the ordinals ever joined as voters are exactly those
  // below voterCount that some pass reached.
  lemma {:induction false} SidecarVotersAre(ordinal: string -> int, passes: seq<Pass>, voterCount: int)
    ensures SidecarVoters(ordinal, passes, voterCount) == AllSidecarHeads(ordinal, passes, voterCount)
    decreases |passes|
  {
    if passes != [] {
      SidecarVotersAre(ordinal, passes[..|passes| - 1], voterCount);
      SidecarPassVoters(ordinal, passes[|passes| - 1], voterCount);
    }
  }

  function PodName(p: Pod): string {
    p.name
  }

  // sort.Slice over the pods the API listed, in whatever order; their names are distinct.
  method SortPods(listed: seq<Pod>) returns (pods: seq<Pod>)
    requires forall i, j :: 0 <= i < j < |listed| ==> listed[i].name != listed[j].name
    ensures SortedBy(pods, PodName)
    ensures forall p :: p in pods <==> p in listed
  {
    pods := [];
    for i := 0 to |listed|
      invariant SortedBy(pods, PodName)
      invariant forall p :: p in pods <==> p in listed[..i]
    {
      pods := InsertBy(pods, listed[i], PodName);
    }
    assert listed[..|listed|] == listed;
  }

  // The loop's guard at position i, and how many positions before it meet it.
  predicate Eligible(p: Pass, i: nat)
    requires i < |p.pods|
  {
    var pod := p.pods[i];
    pod.hostIP != "" && pod.ready && pod.nodeName !in p.drop && !AlreadyMember(p.rows, pod)
  }

  function EligibleBefore(p: Pass, i: nat): nat
    requires i <= |p.pods|
  {
    if i == 0 then 0 else EligibleBefore(p, i - 1) + (if Eligible(p, i - 1) then 1 else 0)
  }

  // The pass gets as far as the call for position i.
  predicate Reaches(p: Pass, i: nat) {
    i < |p.pods| && Eligible(p, i) && EligibleBefore(p, i) < p.made
  }

  function CallAt(p: Pass, i: nat, voterCount: int): JoinCall
    requires i < |p.pods|
  {
    JoinCall(p.pods[i], i, MemberObserver(i, voterCount))
  }

  function JoinsUpTo(p: Pass, k: nat, voterCount: int): seq<JoinCall>
    requires k <= |p.pods|
  {
    DaemonJoins(p.pods[..k], p.drop, p.rows, voterCount)
  }

  lemma JoinsGrow(p: Pass, k: nat, voterCount: int)
    requires k < |p.pods|
    ensures JoinsUpTo(p, k + 1, voterCount)
         == JoinsUpTo(p, k, voterCount) + (if Eligible(p, k) then [CallAt(p, k, voterCount)] else [])
  {
    assert p.pods[..k + 1][..k] == p.pods[..k];
  }

  // The call for position i, if there is one, is the one after those before it.
  lemma {:induction false} JoinsInOrder(p: Pass, k: nat, voterCount: int)
    requires k <= |p.pods|
    ensures |JoinsUpTo(p, k, voterCount)| == EligibleBefore(p, k)
    ensures forall i :: 0 <= i < k && Eligible(p, i) ==>
              EligibleBefore(p, i) < EligibleBefore(p, k)
              && JoinsUpTo(p, k, voterCount)[EligibleBefore(p, i)] == CallAt(p, i, voterCount)
    ensures forall j :: 0 <= j < EligibleBefore(p, k) ==>
              JoinsUpTo(p, k, voterCount)[j].index < k
              && Eligible(p, JoinsUpTo(p, k, voterCount)[j].index)
              && EligibleBefore(p, JoinsUpTo(p, k, voterCount)[j].index) == j
    decreases k
  {
    if k > 0 {
      JoinsInOrder(p, k - 1, voterCount);
      JoinsGrow(p, k - 1, voterCount);
    }
  }

  // A pass makes the calls for exactly the positions it reaches.
  lemma CallsAreReached(p: Pass, voterCount: int, c: JoinCall)
    ensures c in DaemonCalls(p, voterCount) <==> Reaches(p, c.index) && c == CallAt(p, c.index, voterCount)
  {
    var n, calls := |p.pods|, DaemonCalls(p, voterCount);
    assert p.pods[..n] == p.pods;
    JoinsInOrder(p, n, voterCount);
    var all := JoinsUpTo(p, n, voterCount);
    if c in calls {
      var j :| 0 <= j < |calls| && calls[j] == c;
      assert all[j] == c && EligibleBefore(p, c.index) == j;
    }
    if Reaches(p, c.index) && c == CallAt(p, c.index, voterCount) {
      assert calls[EligibleBefore(p, c.index)] == c;
    }
  }

  // The names of the pods some pass reached in one of the first voterCount - 1 places
  // of its sorted list.
  function HeadsReached(p: Pass, voterCount: int): set<string> {
    set i | 0 <= i < |p.pods| && i < voterCount - 1 && Reaches(p, i) :: p.pods[i].name
  }

  function VoterHeads(passes: seq<Pass>, voterCount: int): set<string> {
    if passes == [] then {}
    else VoterHeads(passes[..|passes| - 1], voterCount) + HeadsReached(passes[|passes| - 1], voterCount)
  }

  lemma PassVoters(p: Pass, voterCount: int)
    ensures (set c | c in DaemonCalls(p, voterCount) && !c.observer :: c.pod.name) == HeadsReached(p, voterCount)
  {
    var calls := DaemonCalls(p, voterCount);
    forall c | c in calls && !c.observer
      ensures c.pod.name in HeadsReached(p, voterCount)
    {
      CallsAreReached(p, voterCount, c);
    }
    forall i | 0 <= i < |p.pods| && i < voterCount - 1 && Reaches(p, i)
      ensures CallAt(p, i, voterCount) in calls && !CallAt(p, i, voterCount).observer
    {
      CallsAreReached(p, voterCount, CallAt(p, i, voterCount));
    }
    forall name | name in HeadsReached(p, voterCount)
      ensures name in set c | c in calls && !c.observer :: c.pod.name
    {
      var i :| 0 <= i < |p.pods| && i < voterCount - 1 && Reaches(p, i) && p.pods[i].name == name;
      var c := CallAt(p, i, voterCount);
      assert c in calls && !c.observer && c.pod.name == name;
    }
  }

  // DaemonSet voters, for any passes: the pods ever joined as voters are exactly those
  // that some pass reached among the first voterCount - 1 of its sorted list.
  lemma {:induction false} DaemonVotersAre(passes: seq<Pass>, voterCount: int)
    ensures DaemonVoters(passes, voterCount) == VoterHeads(passes, voterCount)
    decreases |passes|
  {
    if passes != [] {
      DaemonVotersAre(passes[..|passes| - 1], voterCount);
      PassVoters(passes[|passes| - 1], voterCount);
    }
  }

  // DaemonSet quota: it is kept if and only if those pods are no more than it allows.
  lemma DaemonQuotaIff(passes: seq<Pass>, voterCount: int)
    ensures |DaemonVoters(passes, voterCount)| <= voterCount - 1 <==> |VoterHeads(passes, voterCount)| <= voterCount - 1
  {
    DaemonVotersAre(passes, voterCount);
  }

  // The names at the first k positions of a list.
  function FirstNames(names: seq<string>, k: nat): set<string> {
    if k == 0 || names == [] then {} else {names[0]} + FirstNames(names[1..], k - 1)
  }

  lemma {:induction false} FirstNamesSize(names: seq<string>, k: nat)
    ensures |FirstNames(names, k)| <= k
    decreases k
  {
    if k > 0 && names != [] {
      FirstNamesSize(names[1..], k - 1);
    }
  }

  lemma {:induction false} FirstNamesHold(names: seq<string>, k: nat, i: nat)
    requires i < k && i < |names|
    ensures names[i] in FirstNames(names, k)
    decreases k
  {
    if i > 0 {
      FirstNamesHold(names[1..], k - 1, i - 1);
    }
  }

  function NamesOf(pods: seq<Pod>): (names: seq<string>)
    ensures |names| == |pods|
  {
    seq(|pods|, i requires 0 <= i < |pods| => pods[i].name)
  }

  ghost predicate SortedNames(names: seq<string>) {
    forall i, j :: 0 <= i < j < |names| ==> Less(names[i], names[j])
  }

  // A set of names has one sorted list.
  lemma {:induction false} SortedNamesAreUnique(a: seq<string>, b: seq<string>)
    requires SortedNames(a) && SortedNames(b) && forall n :: n in a <==> n in b
    ensures a == b
    decreases |a|
  {
    if b != [] {
      assert b[0] in b && b[0] in a;
    }
    if a != [] {
      assert a[0] in b;
      var j :| 0 <= j < |b| && b[j] == a[0];
      assert b[0] in a;
      var i :| 0 <= i < |a| && a[i] == b[0];
      LessTotal(a[0], b[0]);
      assert a[0] == b[0];
      forall n
        ensures n in a[1..] <==> n in b[1..]
      {
        TailWithout(a, n);
        TailWithout(b, n);
      }
      SortedNamesAreUnique(a[1..], b[1..]);
    }
  }

  lemma TailWithout(a: seq<string>, n: string)
    requires a != [] && SortedNames(a)
    ensures n in a[1..] <==> n in a && n != a[0]
  {
    assert a == [a[0]] + a[1..];
    if n in a[1..] {
      var i :| 0 <= i < |a[1..]| && a[1..][i] == n;
      assert a[i + 1] == n;
      LessTotal(a[0], n);
    }
  }

  // The pass lists these pods, whatever it finds of them otherwise.
  ghost predicate ListsPods(p: Pass, names: set<string>) {
    SortedBy(p.pods, PodName) && forall n :: n in NamesOf(p.pods) <==> n in names
  }

  lemma SameList(p: Pass, q: Pass, names: set<string>)
    requires ListsPods(p, names) && ListsPods(q, names)
    ensures NamesOf(p.pods) == NamesOf(q.pods)
  {
    SortedNamesAreUnique(NamesOf(p.pods), NamesOf(q.pods));
  }

  lemma HeadsAreFirst(p: Pass, voterCount: int)
    requires voterCount >= 1
    ensures HeadsReached(p, voterCount) <= FirstNames(NamesOf(p.pods), voterCount - 1)
  {
    forall i | 0 <= i < |p.pods| && i < voterCount - 1
      ensures p.pods[i].name in FirstNames(NamesOf(p.pods), voterCount - 1)
    {
      FirstNamesHold(NamesOf(p.pods), voterCount - 1, i);
    }
  }

  lemma {:induction false} FixedHeads(passes: seq<Pass>, list: seq<string>, voterCount: int)
    requires voterCount >= 1 && forall i :: 0 <= i < |passes| ==> NamesOf(passes[i].pods) == list
    ensures VoterHeads(passes, voterCount) <= FirstNames(list, voterCount - 1)
    decreases |passes|
  {
    if passes != [] {
      FixedHeads(passes[..|passes| - 1], list, voterCount);
      HeadsAreFirst(passes[|passes| - 1], voterCount);
    }
  }

  lemma FixedList(passes: seq<Pass>, names: set<string>) returns (list: seq<string>)
    requires passes != [] && forall i :: 0 <= i < |passes| ==> ListsPods(passes[i], names)
    ensures forall i :: 0 <= i < |passes| ==> NamesOf(passes[i].pods) == list
  {
    list := NamesOf(passes[0].pods);
    forall i | 0 <= i < |passes|
      ensures NamesOf(passes[i].pods) == list
    {
      SameList(passes[0], passes[i], names);
    }
  }

  lemma FixedHeadsFit(passes: seq<Pass>, list: seq<string>, voterCount: int)
    requires voterCount >= 1 && forall i :: 0 <= i < |passes| ==> NamesOf(passes[i].pods) == list
    ensures |VoterHeads(passes, voterCount)| <= voterCount - 1
  {
    FixedHeads(passes, list, voterCount);
    FirstNamesSize(list, voterCount - 1);
    SubsetSize(VoterHeads(passes, voterCount), FirstNames(list, voterCount - 1));
  }

  // With a fixed set of pods the quota is kept, whatever else changes from pass to pass.
  lemma FixedListQuota(passes: seq<Pass>, names: set<string>, voterCount: int)
    requires voterCount >= 1 && forall i :: 0 <= i < |passes| ==> ListsPods(passes[i], names)
    ensures |DaemonVoters(passes, voterCount)| <= voterCount - 1
  {
    if passes == [] {
      FixedHeadsFit(passes, [], voterCount);
    } else {
      var list := FixedList(passes, names);
      FixedHeadsFit(passes, list, voterCount);
    }
    DaemonQuotaIff(passes, voterCount);
  }

  function RowOf(p: Pod): Row {
    Row(p.nodeName, JoinAddr(p))
  }

  predicate Joinable(p: Pod, rows: seq<Row>) {
    p.ready && p.hostIP != "" && !AlreadyMember(rows, p)
  }

  lemma FirstPassHeads(b: Pod, c: Pod, rows: seq<Row>)
    requires Joinable(b, rows) && Joinable(c, rows)
    ensures HeadsReached(Pass([b, c], {}, rows, 2), 3) == {b.name, c.name}
  {
    var p := Pass([b, c], {}, rows, 2);
    assert Reaches(p, 0) && Reaches(p, 1);
    assert p.pods[0].name in HeadsReached(p, 3) && p.pods[1].name in HeadsReached(p, 3);
  }

  lemma SecondPassHeads(a: Pod, b: Pod, c: Pod, rows: seq<Row>)
    requires Joinable(a, rows) && AlreadyMember(rows, b) && AlreadyMember(rows, c)
    ensures HeadsReached(Pass([a, b, c], {}, rows, 3), 3) == {a.name}
  {
    var p := Pass([a, b, c], {}, rows, 3);
    assert Reaches(p, 0) && !Eligible(p, 1);
    assert p.pods[0].name in HeadsReached(p, 3);
  }

  lemma JoinedIsMember(p: Pod, rows: seq<Row>, k: nat)
    requires p.hostIP != "" && k < |rows| && rows[k] == RowOf(p)
    ensures AlreadyMember(rows, p)
  {
    assert RowIsPod(rows[k], p);
  }

  lemma VoterHeadsOfTwo(p1: Pass, p2: Pass, voterCount: int)
    ensures VoterHeads([p1, p2], voterCount) == HeadsReached(p1, voterCount) + HeadsReached(p2, voterCount)
  {
    assert [p1, p2][..1] == [p1] && [p1][..0] == [];
    assert VoterHeads([p1], voterCount) == HeadsReached(p1, voterCount);
  }

  lemma ThreeNames(a: string, b: string, c: string)
    requires a != b && a != c && b != c
    ensures |{b, c} + {a}| == 3
  {
    assert |{b, c}| == 2;
  }

  lemma SortedThree(a: Pod, b: Pod, c: Pod)
    requires Less(a.name, b.name) && Less(b.name, c.name)
    ensures SortedBy([b, c], PodName) && SortedBy([a, b, c], PodName)
    ensures a.name != b.name && a.name != c.name && b.name != c.name
  {
    LessTransitive(a.name, b.name, c.name);
    LessTotal(a.name, b.name);
    LessTotal(b.name, c.name);
    LessTotal(a.name, c.name);
  }

  // A growing list breaks it: a pod that sorts before two that were joined as voters,
  // and appear as members since, moves them up and takes a voter's place of its own.
  lemma GrowingListBreaksQuota(a: Pod, b: Pod, c: Pod, rows: seq<Row>)
    requires Less(a.name, b.name) && Less(b.name, c.name)
    requires Joinable(b, rows) && Joinable(c, rows) && Joinable(a, rows + [RowOf(b), RowOf(c)])
    ensures SortedBy([b, c], PodName) && SortedBy([a, b, c], PodName)
    ensures |DaemonVoters([Pass([b, c], {}, rows, 2), Pass([a, b, c], {}, rows + [RowOf(b), RowOf(c)], 3)], 3)| == 3
  {
    var rows' := rows + [RowOf(b), RowOf(c)];
    var p1, p2 := Pass([b, c], {}, rows, 2), Pass([a, b, c], {}, rows', 3);
    SortedThree(a, b, c);
    JoinedIsMember(b, rows', |rows|);
    JoinedIsMember(c, rows', |rows| + 1);
    FirstPassHeads(b, c, rows);
    SecondPassHeads(a, b, c, rows');
    VoterHeadsOfTwo(p1, p2, 3);
    ThreeNames(a.name, b.name, c.name);
    DaemonVotersAre([p1, p2], 3);
  }
}
