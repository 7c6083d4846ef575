/** One-to-many event delivery. `sendCases` lives in one array; while a value is being sent, its
    prefix `cases` holds the subscribers still waiting, and removals shift the whole array under it. */
module Feed {
  import opened Util

  type Chan = nat
  type Value = int

  /** A select case: its channel, and the value it carries while a send is under way. */
  datatype Case = Case(ch: Chan, send: Option<Value>)

  datatype Delivery = Delivery(ch: Chan, value: Value)

  /** Index of the first subscription; position zero receives removal requests. */
  const FIRST_SUB: nat := 1

  function One(b: bool): nat { if b then 1 else 0 }

  /** How many cases of `s` are for channel `c`. */
  function Count(s: seq<Case>, c: Chan): nat {
    if s == [] then 0 else Count(s[..|s| - 1], c) + One(s[|s| - 1].ch == c)
  }

  /** How many of the deliveries `w` went to channel `c`. */
  function Got(w: seq<Delivery>, c: Chan): nat {
    if w == [] then 0 else Got(w[..|w| - 1], c) + One(w[|w| - 1].ch == c)
  }

  function Times(r: seq<Chan>, c: Chan): nat {
    if r == [] then 0 else Times(r[..|r| - 1], c) + One(r[|r| - 1] == c)
  }

  lemma {:induction false} CountConcat(s: seq<Case>, t: seq<Case>, c: Chan)
    ensures Count(s + t, c) == Count(s, c) + Count(t, c)
  {
    if t == [] {
      assert s + t == s;
    } else {
      assert (s + t)[..|s + t| - 1] == s + t[..|t| - 1];
      CountConcat(s, t[..|t| - 1], c);
    }
  }

  lemma GotPush(w: seq<Delivery>, d: Delivery, c: Chan)
    ensures Got(w + [d], c) == Got(w, c) + One(d.ch == c)
  {
    assert (w + [d])[..|w|] == w;
  }

  lemma TimesPush(r: seq<Chan>, x: Chan, c: Chan)
    ensures Times(r + [x], c) == Times(r, c) + One(x == c)
  {
    assert (r + [x])[..|r|] == r;
  }

  /** A list without position `i`. */
  function Without<T>(s: seq<T>, i: nat): seq<T>
    requires i < |s|
  {
    s[..i] + s[i + 1..]
  }

  /** A list with two positions exchanged. */
  function Swapped<T>(s: seq<T>, i: nat, j: nat): seq<T>
    requires i < |s| && j < |s|
  {
    s[i := s[j]][j := s[i]]
  }

  /** `t` is `s` without one case for the channel. */
  ghost predicate OneLess(s: seq<Case>, t: seq<Case>, ch: Chan) {
    exists i | 0 <= i < |s| :: s[i].ch == ch && t == Without(s, i)
  }

  lemma CountSplit(s: seq<Case>, i: nat, c: Chan)
    requires i < |s|
    ensures Count(s, c) == Count(s[..i], c) + One(s[i].ch == c) + Count(s[i + 1..], c)
  {
    assert s == s[..i + 1] + s[i + 1..];
    CountConcat(s[..i + 1], s[i + 1..], c);
    assert s[..i + 1][..i] == s[..i];
  }

  lemma CountWithout(s: seq<Case>, i: nat, c: Chan)
    requires i < |s|
    ensures Count(s, c) == Count(Without(s, i), c) + One(s[i].ch == c)
  {
    CountSplit(s, i, c);
    CountConcat(s[..i], s[i + 1..], c);
  }

  lemma CountUpdate(s: seq<Case>, i: nat, x: Case, c: Chan)
    requires i < |s|
    ensures Count(s[i := x], c) == Count(s, c) - One(s[i].ch == c) + One(x.ch == c)
  {
    CountSplit(s, i, c);
    CountSplit(s[i := x], i, c);
    assert s[i := x][..i] == s[..i] && s[i := x][i + 1..] == s[i + 1..];
  }

  lemma CountSwapped(s: seq<Case>, i: nat, j: nat, c: Chan)
    requires i < |s| && j < |s|
    ensures Count(Swapped(s, i, j), c) == Count(s, c)
  {
    CountUpdate(s, i, s[j], c);
    CountUpdate(s[i := s[j]], j, s[i], c);
  }

  /** Moving case `i` of a prefix to its end takes one case out of the prefix. */
  lemma CountDeactivate(s: seq<Case>, i: nat, last: nat, c: Chan)
    requires i <= last < |s|
    ensures Count(s[..last + 1], c) == Count(Swapped(s, i, last)[..last], c) + One(s[i].ch == c)
  {
    var p := s[..last + 1];
    var q := Swapped(s, i, last);
    CountSwapped(p, i, last, c);
    assert Swapped(p, i, last)[..last] == q[..last];
  }

  /** Everything the accounting of one send relies on: what is still waiting, what was delivered and
      what was removed while waiting add up to the cases at the start; so do the cases still
      subscribed and all those removed; and what was removed while waiting was removed. */
  ghost predicate Accounted(start: seq<Case>, s: seq<Case>, k: nat, w: seq<Delivery>, removedWaiting: seq<Chan>,
                            removed: seq<Chan>)
    requires FIRST_SUB <= k <= |s|
  {
    forall c: Chan {:trigger AccountedFor(start, s, k, w, removedWaiting, removed, c)} ::
        AccountedFor(start, s, k, w, removedWaiting, removed, c)
  }

  /** The same for one channel. */
  ghost predicate AccountedFor(start: seq<Case>, s: seq<Case>, k: nat, w: seq<Delivery>, removedWaiting: seq<Chan>,
                               removed: seq<Chan>, c: Chan)
    requires FIRST_SUB <= k <= |s|
  {
    && Count(s[FIRST_SUB..k], c) + Got(w, c) + Times(removedWaiting, c) == Count(start, c)
    && Count(s[FIRST_SUB..], c) + Times(removed, c) == Count(start, c)
    && Times(removedWaiting, c) <= Times(removed, c)
  }

  lemma DeliverFor(start: seq<Case>, s: seq<Case>, k: nat, w: seq<Delivery>, rw: seq<Chan>, r: seq<Chan>, i: nat,
                   v: Value, c: Chan)
    requires FIRST_SUB <= i < k <= |s| && AccountedFor(start, s, k, w, rw, r, c)
    ensures AccountedFor(start, Swapped(s, i, k - 1), k - 1, w + [Delivery(s[i].ch, v)], rw, r, c)
  {
    var s' := Swapped(s, i, k - 1);
    GotPush(w, Delivery(s[i].ch, v), c);
    var t := s[FIRST_SUB..];
    assert s'[FIRST_SUB..] == Swapped(t, i - 1, k - 2);
    CountSwapped(t, i - 1, k - 2, c);
    CountDeactivate(t, i - 1, k - 2, c);
    assert t[..k - 1] == s[FIRST_SUB..k];
    assert Swapped(t, i - 1, k - 2)[..k - 2] == s'[FIRST_SUB..k - 1];
  }

  lemma AccountedDeliver(start: seq<Case>, s: seq<Case>, k: nat, w: seq<Delivery>, rw: seq<Chan>, r: seq<Chan>, i: nat,
                         v: Value)
    requires FIRST_SUB <= i < k <= |s| && Accounted(start, s, k, w, rw, r)
    ensures Accounted(start, Swapped(s, i, k - 1), k - 1, w + [Delivery(s[i].ch, v)], rw, r)
  {
    var s', k', w' := Swapped(s, i, k - 1), k - 1, w + [Delivery(s[i].ch, v)];
    forall c: Chan ensures AccountedFor(start, s', k', w', rw, r, c) {
      DeliverFor(start, s, k, w, rw, r, i, v, c);
    }
  }

  /** Removing a waiting case. */
  lemma RemoveWaitingFor(start: seq<Case>, s: seq<Case>, k: nat, w: seq<Delivery>, rw: seq<Chan>, r: seq<Chan>, i: nat,
                         c: Chan)
    requires FIRST_SUB <= i < k <= |s| && AccountedFor(start, s, k, w, rw, r, c)
    ensures AccountedFor(start, Without(s, i), k - 1, w, rw + [s[i].ch], r + [s[i].ch], c)
  {
    var s', t, p := Without(s, i), s[FIRST_SUB..], s[FIRST_SUB..k];
    TimesPush(rw, s[i].ch, c);
    TimesPush(r, s[i].ch, c);
    assert s'[FIRST_SUB..] == Without(t, i - 1);
    CountWithout(t, i - 1, c);
    assert s'[FIRST_SUB..k - 1] == Without(p, i - 1);
    CountWithout(p, i - 1, c);
  }

  /** Removing a case that was delivered to already. */
  lemma RemoveServedFor(start: seq<Case>, s: seq<Case>, k: nat, w: seq<Delivery>, rw: seq<Chan>, r: seq<Chan>, i: nat,
                        c: Chan)
    requires FIRST_SUB <= k <= i < |s| && AccountedFor(start, s, k, w, rw, r, c)
    ensures AccountedFor(start, Without(s, i), k, w, rw, r + [s[i].ch], c)
  {
    var s', t := Without(s, i), s[FIRST_SUB..];
    TimesPush(r, s[i].ch, c);
    assert s'[FIRST_SUB..] == Without(t, i - 1);
    CountWithout(t, i - 1, c);
    assert s'[FIRST_SUB..k] == s[FIRST_SUB..k];
  }

  lemma RemoveWaiting(start: seq<Case>, s: seq<Case>, k: nat, w: seq<Delivery>, rw: seq<Chan>, r: seq<Chan>, i: nat)
    requires FIRST_SUB <= i < k <= |s| && Accounted(start, s, k, w, rw, r)
    ensures Accounted(start, Without(s, i), k - 1, w, rw + [s[i].ch], r + [s[i].ch])
  {
    var s', k', rw', r' := Without(s, i), k - 1, rw + [s[i].ch], r + [s[i].ch];
    forall c: Chan ensures AccountedFor(start, s', k', w, rw', r', c) {
      RemoveWaitingFor(start, s, k, w, rw, r, i, c);
    }
  }

  lemma RemoveServed(start: seq<Case>, s: seq<Case>, k: nat, w: seq<Delivery>, rw: seq<Chan>, r: seq<Chan>, i: nat)
    requires FIRST_SUB <= k <= i < |s| && Accounted(start, s, k, w, rw, r)
    ensures Accounted(start, Without(s, i), k, w, rw, r + [s[i].ch])
  {
    var s', r' := Without(s, i), r + [s[i].ch];
    forall c: Chan ensures AccountedFor(start, s', k, w, rw, r', c) {
      RemoveServedFor(start, s, k, w, rw, r, i, c);
    }
  }

  /** Every case carries the same pending value. */
  ghost predicate AllCarry(s: seq<Case>, v: Option<Value>) {
    forall i | FIRST_SUB <= i < |s| :: s[i].send == v
  }

  /** The state in the middle of a send of `v`: the cases `s` with waiting prefix `k`. */
  ghost predicate Sending(start: seq<Case>, s: seq<Case>, k: nat, removeSub: Chan, v: Value,
                          w: seq<Delivery>, rw: seq<Chan>, r: seq<Chan>)
  {
    && FIRST_SUB <= k <= |s|
    && s[0].ch == removeSub && (forall i | FIRST_SUB <= i < |s| :: s[i].ch != removeSub)
    && AllCarry(s, Some(v))
    && (forall i | 0 <= i < |w| :: w[i].value == v)
    && Accounted(start, s, k, w, rw, r)
  }

  lemma SendingDeliver(start: seq<Case>, s: seq<Case>, k: nat, removeSub: Chan, v: Value, w: seq<Delivery>,
                       rw: seq<Chan>, r: seq<Chan>, i: nat)
    requires Sending(start, s, k, removeSub, v, w, rw, r) && FIRST_SUB <= i < k
    ensures Sending(start, Swapped(s, i, k - 1), k - 1, removeSub, v, w + [Delivery(s[i].ch, v)], rw, r)
  {
    AccountedDeliver(start, s, k, w, rw, r, i, v);
  }

  lemma SendingRemoveWaiting(start: seq<Case>, s: seq<Case>, k: nat, removeSub: Chan, v: Value, w: seq<Delivery>,
                             rw: seq<Chan>, r: seq<Chan>, i: nat)
    requires Sending(start, s, k, removeSub, v, w, rw, r) && FIRST_SUB <= i < k
    ensures Sending(start, Without(s, i), k - 1, removeSub, v, w, rw + [s[i].ch], r + [s[i].ch])
  {
    RemoveWaiting(start, s, k, w, rw, r, i);
  }

  lemma SendingRemoveServed(start: seq<Case>, s: seq<Case>, k: nat, removeSub: Chan, v: Value, w: seq<Delivery>,
                            rw: seq<Chan>, r: seq<Chan>, i: nat)
    requires Sending(start, s, k, removeSub, v, w, rw, r) && k <= i < |s|
    ensures Sending(start, Without(s, i), k, removeSub, v, w, rw, r + [s[i].ch])
  {
    RemoveServed(start, s, k, w, rw, r, i);
  }

  lemma SendingStart(s0: seq<Case>, s: seq<Case>, removeSub: Chan, v: Value)
    requires |s| == |s0| >= FIRST_SUB && s[0] == s0[0] && s[0].ch == removeSub
    requires forall i | FIRST_SUB <= i < |s| :: s[i] == s0[i].(send := Some(v)) && s[i].ch != removeSub
    ensures Sending(s0[FIRST_SUB..], s, |s|, removeSub, v, [], [], [])
  {
    assert s[FIRST_SUB..|s|] == s[FIRST_SUB..];
    forall c: Chan ensures AccountedFor(s0[FIRST_SUB..], s, |s|, [], [], [], c) {
      CountSame(s[FIRST_SUB..], s0[FIRST_SUB..], c);
    }
  }

  lemma {:induction false} CountSame(s: seq<Case>, t: seq<Case>, c: Chan)
    requires |s| == |t| && forall i | 0 <= i < |s| :: s[i].ch == t[i].ch
    ensures Count(s, c) == Count(t, c)
  {
    if s != [] {
      CountSame(s[..|s| - 1], t[..|t| - 1], c);
    }
  }

  lemma AccountedCleared(start: seq<Case>, s: seq<Case>, t: seq<Case>, w: seq<Delivery>, rw: seq<Chan>, r: seq<Chan>)
    requires FIRST_SUB <= |s| == |t| && Accounted(start, s, FIRST_SUB, w, rw, r)
    requires forall i | FIRST_SUB <= i < |s| :: s[i].ch == t[i].ch
    ensures Accounted(start, t, FIRST_SUB, w, rw, r)
  {
    assert s[FIRST_SUB..FIRST_SUB] == t[FIRST_SUB..FIRST_SUB];
    forall c: Chan ensures AccountedFor(start, t, FIRST_SUB, w, rw, r, c) {
      assert AccountedFor(start, s, FIRST_SUB, w, rw, r, c);
      CountSame(s[FIRST_SUB..], t[FIRST_SUB..], c);
    }
  }

  /** A larger array with the same first `len` cases. */
  method Grown(a: array<Case>, len: nat, size: nat, fill: Case) returns (b: array<Case>)
    requires len <= a.Length && len <= size
    ensures fresh(b) && b.Length == size && b[..len] == a[..len]
  {
    b := new Case[size](_ => fill);
    forall i | 0 <= i < len {
      b[i] := a[i];
    }
  }

  /** Writes `added` behind the first `len` cases. */
  method Append(a: array<Case>, len: nat, added: seq<Case>)
    requires len + |added| <= a.Length
    modifies a
    ensures a[..len + |added|] == old(a[..len]) + added
  {
    for i := 0 to |added|
      invariant a[..len] == old(a[..len]) && a[len..len + i] == added[..i]
    {
      a[len + i] := added[i];
    }
    assert a[..len + |added|] == a[..len] + a[len..len + |added|];
  }

  lemma AppendedValid(s: seq<Case>, added: seq<Case>, removeSub: Chan)
    requires FIRST_SUB <= |s| && s[0].ch == removeSub
    requires forall i | FIRST_SUB <= i < |s| :: s[i].ch != removeSub
    requires forall i | 0 <= i < |added| :: added[i].ch != removeSub
    ensures (s + added)[0].ch == removeSub && forall i | FIRST_SUB <= i < |s + added| :: (s + added)[i].ch != removeSub
  {
  }

  /** New subscriptions, none for the channel that interrupts a send. */
  ghost predicate Waiting(inbox: seq<Case>, removeSub: Chan) {
    forall i | 0 <= i < |inbox| :: inbox[i].ch != removeSub && inbox[i].send.None?
  }

  /** The cases of new subscriptions. */
  function NewCases(chs: seq<Chan>): seq<Case> { seq(|chs|, i requires 0 <= i < |chs| => Case(chs[i], None)) }

  class Feed {
    var buf: array<Case>
    var n: nat
    var inbox: seq<Case>
    /** Everything ever handed to a subscriber channel. */
    var wire: seq<Delivery>
    /** The channel that interrupts a send; no subscriber uses it. */
    const removeSub: Chan

    ghost predicate Valid()
      reads this, buf
    {
      && FIRST_SUB <= n <= buf.Length
      && buf[0].ch == removeSub
      && (forall i | FIRST_SUB <= i < n :: buf[i].ch != removeSub)
      && Waiting(inbox, removeSub)
    }

    /** No send is under way: no case carries a value. */
    ghost predicate Idle()
      reads this, buf
      requires Valid()
    {
      AllCarry(buf[..n], None)
    }

    constructor (removeSub: Chan)
      ensures Valid() && Idle() && fresh(buf)
      ensures n == FIRST_SUB && inbox == [] && wire == [] && this.removeSub == removeSub
    {
      this.removeSub := removeSub;
      buf := new Case[1](_ => Case(removeSub, None));
      n, inbox, wire := 1, [], [];
    }

    method Subscribe(ch: Chan)
      requires Valid() && ch != removeSub
      modifies this`inbox
      ensures Valid() && inbox == old(inbox) + [Case(ch, None)]
    {
      inbox := inbox + [Case(ch, None)];
    }

    /** First position of a channel among the cases, or minus one. */
    method Find(ch: Chan) returns (index: int)
      requires n <= buf.Length
      ensures -1 <= index < n
      ensures index >= 0 ==> buf[index].ch == ch && forall i | 0 <= i < index :: buf[i].ch != ch
      ensures index < 0 ==> forall i | 0 <= i < n :: buf[i].ch != ch
    {
      for i := 0 to n
        invariant forall j | 0 <= j < i :: buf[j].ch != ch
      {
        if buf[i].ch == ch {
          return i;
        }
      }
      return -1;
    }

    /** Shifts everything behind `index` one place forward, in place. */
    method Delete(index: nat)
      requires index < n <= buf.Length
      modifies this`n, buf
      ensures n == old(n) - 1 && n <= buf.Length
      ensures buf[..n] == Without(old(buf[..n]), index)
    {
      var i, a, len := index, buf, n;
      while i < len - 1
        invariant index <= i <= len - 1 && n == len && buf == a
        invariant forall j | 0 <= j < index :: a[j] == old(a[j])
        invariant forall j | index <= j < i :: a[j] == old(a[j + 1])
        invariant forall j | i < j < len :: a[j] == old(a[j])
      {
        a[i] := a[i + 1];
        i := i + 1;
      }
      n := n - 1;
      assert forall j | 0 <= j < n :: buf[..n][j] == Without(old(buf[..n]), index)[j];
    }

    /** Moves a delivered case just behind the waiting prefix. */
    method Deactivate(index: nat, last: nat)
      requires index <= last < n <= buf.Length
      modifies buf
      ensures buf[..n] == Swapped(old(buf[..n]), index, last)
    {
      buf[index], buf[last] := buf[last], buf[index];
    }

    /** Takes the new subscriptions over from the inbox, growing the array if it is full. */
    method AppendInbox()
      requires Valid()
      modifies this`buf, this`n, this`inbox, buf
      ensures Valid() && inbox == [] && (buf == old(buf) || fresh(buf))
      ensures buf[..n] == old(buf[..n]) + old(inbox)
    {
      var len, added := n, inbox;
      ghost var s := buf[..n];
      var a := buf;
      if len + |added| > a.Length {
        a := Grown(buf, len, len + |added|, Case(removeSub, None));
      }
      assert a[..len] == s;
      Append(a, len, added);
      assert a[..len + |added|] == s + added;
      AppendedValid(s, added, removeSub);
      buf, n, inbox := a, len + |added|, [];
      assert buf[..n] == s + added;
      assert forall i | 0 <= i < n :: buf[i] == buf[..n][i];
    }

    /** Unsubscribes a channel while no send is under way. */
    method RemoveIdle(ch: Chan)
      requires Valid() && ch != removeSub
      requires || (exists i :: 0 <= i < |inbox| && inbox[i].ch == ch)
               || (exists i :: FIRST_SUB <= i < n && buf[i].ch == ch)
      modifies this`inbox, this`n, buf
      ensures Valid()
      ensures (OneLess(old(inbox), inbox, ch) && buf[..n] == old(buf[..n]))
              || (inbox == old(inbox) && OneLess(old(buf[..n]), buf[..n], ch))
    {
      var i := 0;
      while i < |inbox|
        invariant 0 <= i <= |inbox|
        invariant forall j | 0 <= j < i :: inbox[j].ch != ch
      {
        if inbox[i].ch == ch {
          assert OneLess(inbox, Without(inbox, i), ch);
          inbox := Without(inbox, i);
          return;
        }
        i := i + 1;
      }
      var index := Find(ch);
      ghost var s := buf[..n];
      assert s[index] == buf[index];
      assert OneLess(s, Without(s, index), ch);
      Delete(index);
      assert forall j | 0 <= j < n :: buf[j] == Without(s, index)[j];
    }

    /** Writes the pending value into every case, or clears it. */
    method SetSend(v: Option<Value>)
      requires Valid()
      modifies buf
      ensures Valid() && buf[0] == old(buf[0])
      ensures forall i | FIRST_SUB <= i < n :: buf[i] == old(buf[i]).(send := v)
    {
      for i := FIRST_SUB to n
        invariant buf[0] == old(buf[0])
        invariant forall j | FIRST_SUB <= j < i :: buf[j] == old(buf[j]).(send := v)
        invariant forall j | i <= j < n :: buf[j] == old(buf[j])
      {
        buf[i] := buf[i].(send := v);
      }
    }

    /** The fast path: offers the value to every waiting case once, without blocking. Whether a
        channel has room is up to its reader. */
    method TrySendAll(value: Value, k0: nat, ghost start: seq<Case>, ghost w0: seq<Delivery>, ghost rw: seq<Chan>,
                      ghost r: seq<Chan>)
      returns (k: nat, ghost w: seq<Delivery>)
      requires n <= buf.Length && Sending(start, buf[..n], k0, removeSub, value, w0, rw, r)
      modifies this`wire, buf
      ensures n <= buf.Length && Sending(start, buf[..n], k, removeSub, value, w, rw, r)
      ensures k <= k0 && |w| - |w0| == k0 - k && wire == old(wire) + w[|w0|..] && w0 <= w
    {
      k, w := k0, w0;
      ghost var len := n;
      var i := FIRST_SUB;
      while i < k
        invariant n == len && FIRST_SUB <= i && k <= k0
        invariant n <= buf.Length && Sending(start, buf[..n], k, removeSub, value, w, rw, r)
        invariant |w| - |w0| == k0 - k && w0 <= w && wire == old(wire) + w[|w0|..]
        decreases k - i
      {
        var ready: bool := *;
        if ready {
          ghost var d := Delivery(buf[i].ch, value);
          DeliverOne(value, k, start, w, rw, r, i);
          k, w := k - 1, w + [d];
        } else {
          i := i + 1;
        }
      }
    }

    /** The subscribed channel of case `j`, waiting or not, is removed. */
    method RemoveOne(j: nat, ghost value: Value, k0: nat, ghost start: seq<Case>, ghost w: seq<Delivery>,
                     ghost rw0: seq<Chan>, ghost r0: seq<Chan>)
      returns (k: nat, ghost rw: seq<Chan>, ghost r: seq<Chan>)
      requires n <= buf.Length && Sending(start, buf[..n], k0, removeSub, value, w, rw0, r0) && FIRST_SUB <= j < n
      modifies this`n, buf
      ensures n <= buf.Length && Sending(start, buf[..n], k, removeSub, value, w, rw, r) && k + n < k0 + old(n)
      ensures r == r0 + [old(buf[j]).ch]
    {
      ghost var s := buf[..n];
      assert s[j] == buf[j];
      var index := Find(buf[j].ch);
      assert index >= 0 && s[index] == buf[index] && s[0] == buf[0];
      k, rw, r := k0, rw0, r0 + [s[index].ch];
      Delete(index);
      if index < k0 {
        SendingRemoveWaiting(start, s, k0, removeSub, value, w, rw0, r0, index);
        k, rw := k0 - 1, rw0 + [s[index].ch];
      } else {
        SendingRemoveServed(start, s, k0, removeSub, value, w, rw0, r0, index);
      }
    }

    /** A waiting reader takes the value its case carries. */
    method DeliverOne(ghost value: Value, k: nat, ghost start: seq<Case>, ghost w: seq<Delivery>, ghost rw: seq<Chan>,
                      ghost r: seq<Chan>, i: nat)
      requires n <= buf.Length && FIRST_SUB <= i < k <= n && Sending(start, buf[..n], k, removeSub, value, w, rw, r)
      modifies this`wire, buf
      ensures var d := Delivery(old(buf[i]).ch, value);
        wire == old(wire) + [d] && Sending(start, buf[..n], k - 1, removeSub, value, w + [d], rw, r)
    {
      ghost var s := buf[..n];
      assert s[i] == buf[i];
      SendingDeliver(start, s, k, removeSub, value, w, rw, r, i);
      wire := wire + [Delivery(buf[i].ch, buf[i].send.value)];
      Deactivate(i, k - 1);
    }

    /** One blocking select: either a waiting reader takes its value, or a subscribed channel that
        wants to leave, waiting or not, is removed. */
    method SelectOne(value: Value, leaving: set<Chan>, k0: nat, ghost start: seq<Case>, ghost w0: seq<Delivery>,
                     ghost rw0: seq<Chan>, ghost r0: seq<Chan>)
      returns (k: nat, sent: nat, ghost w: seq<Delivery>, ghost rw: seq<Chan>, ghost r: seq<Chan>)
      requires n <= buf.Length && Sending(start, buf[..n], k0, removeSub, value, w0, rw0, r0) && k0 > FIRST_SUB
      requires forall c | c in r0 :: c in leaving
      modifies this`wire, this`n, buf
      ensures n <= buf.Length && Sending(start, buf[..n], k, removeSub, value, w, rw, r)
      ensures k + n < k0 + old(n) && |w| == |w0| + sent && w0 <= w && wire == old(wire) + w[|w0|..]
      ensures forall c | c in r :: c in leaving
    {
      var chosen: nat :| 0 <= chosen < k0;
      var j: nat :| FIRST_SUB <= j < n;
      if chosen == 0 && buf[j].ch in leaving {
        k, rw, r := RemoveOne(j, value, k0, start, w0, rw0, r0);
        sent, w := 0, w0;
      } else {
        var i := if chosen == 0 then FIRST_SUB else chosen;
        ghost var d := Delivery(buf[i].ch, value);
        DeliverOne(value, k0, start, w0, rw0, r0, i);
        k, sent, w, rw, r := k0 - 1, 1, w0 + [d], rw0, r0;
      }
    }

    /** Takes over the inbox and arms every case with the value. */
    method Begin(value: Value) returns (ghost start: seq<Case>)
      requires Valid()
      modifies this`buf, this`n, this`inbox, buf
      ensures buf == old(buf) || fresh(buf)
      ensures start == old(buf[FIRST_SUB..n]) + old(inbox) && inbox == []
      ensures n <= buf.Length && Sending(start, buf[..n], n, removeSub, value, [], [], [])
    {
      AppendInbox();
      ghost var s0 := buf[..n];
      start := s0[FIRST_SUB..];
      SetSend(Some(value));
      SendingStart(s0, buf[..n], removeSub, value);
    }

    /** Some of the subscriptions still to come arrive. */
    method Arrivals(arriving: seq<Chan>, arrived0: nat) returns (arrived: nat)
      requires arrived0 <= |arriving| && inbox == NewCases(arriving[..arrived0]) && removeSub !in arriving
      modifies this`inbox
      ensures arrived0 <= arrived <= |arriving| && inbox == NewCases(arriving[..arrived])
    {
      var until: nat :| arrived0 <= until <= |arriving|;
      arrived := arrived0;
      while arrived < until
        invariant arrived0 <= arrived <= until && inbox == NewCases(arriving[..arrived])
      {
        inbox := inbox + [Case(arriving[arrived], None)];
        arrived := arrived + 1;
      }
    }

    /** Forgets the value in every case once nothing is waiting. */
    method Finish(ghost value: Value, ghost start: seq<Case>, ghost w: seq<Delivery>, ghost rw: seq<Chan>,
                  ghost r: seq<Chan>)
      requires n <= buf.Length && Waiting(inbox, removeSub)
               && Sending(start, buf[..n], FIRST_SUB, removeSub, value, w, rw, r)
      modifies buf
      ensures Valid() && Idle()
      ensures Accounted(start, buf[..n], FIRST_SUB, w, rw, r)
    {
      ghost var s := buf[..n];
      assert forall i | 0 <= i < n :: s[i] == buf[i];
      SetSend(None);
      AccountedCleared(start, s, buf[..n], w, rw, r);
    }

    /** Delivers `value` to every subscriber. Readers become ready, channels of `leaving` are removed and the
        subscriptions `arriving` come in to stay, in any order the environment likes; the first `arrived` of them came
        before the end and are in the inbox. Returns the number of deliveries; `removed` lists the channels removed
        meanwhile and `removedWaiting` those removed before their delivery. A channel that does not leave gets the value
        once for each subscription. */
    method Send(value: Value, leaving: set<Chan>, arriving: seq<Chan>)
      returns (nsent: nat, arrived: nat, ghost w: seq<Delivery>, ghost removedWaiting: seq<Chan>,
               ghost removed: seq<Chan>)
      requires Valid() && Idle() && removeSub !in arriving
      modifies this, buf
      ensures Valid() && Idle() && (buf == old(buf) || fresh(buf))
      ensures arrived <= |arriving| && inbox == NewCases(arriving[..arrived])
      ensures wire == old(wire) + w && nsent == |w| && forall i | 0 <= i < |w| :: w[i].value == value
      ensures Accounted(old(buf[FIRST_SUB..n]) + old(inbox), buf[..n], FIRST_SUB, w, removedWaiting, removed)
      ensures forall c | c in removed :: c in leaving
      ensures forall c: Chan | c !in leaving ::
                Got(w, c) == Count(old(buf[FIRST_SUB..n]) + old(inbox), c) == Count(buf[FIRST_SUB..n], c)
    {
      ghost var start := Begin(value);
      w, removedWaiting, removed, nsent, arrived := [], [], [], 0, 0;
      ghost var a := buf;
      var k := n;
      while true
        invariant buf == a && arrived <= |arriving| && inbox == NewCases(arriving[..arrived])
        invariant n <= buf.Length && Sending(start, buf[..n], k, removeSub, value, w, removedWaiting, removed)
        invariant wire == old(wire) + w && nsent == |w|
        invariant forall c | c in removed :: c in leaving
        decreases n + k
      {
        var k', w' := TrySendAll(value, k, start, w, removedWaiting, removed);
        nsent := nsent + (k - k');
        k, w := k', w';
        if k == FIRST_SUB {
          break;
        }
        arrived := Arrivals(arriving, arrived);
        var sent;
        k', sent, w', removedWaiting, removed := SelectOne(value, leaving, k, start, w, removedWaiting, removed);
        nsent := nsent + sent;
        k, w := k', w';
      }
      Finish(value, start, w, removedWaiting, removed);
      forall c: Chan | c !in leaving ensures Got(w, c) == Count(start, c) == Count(buf[FIRST_SUB..n], c) {
        StayingServed(start, buf[..n], w, removedWaiting, removed, c);
        assert buf[..n][FIRST_SUB..] == buf[FIRST_SUB..n];
      }
    }
  }

  /** A channel that was not removed got the value once for each of its subscriptions, and keeps them all. */
  lemma StayingServed(start: seq<Case>, s: seq<Case>, w: seq<Delivery>, rw: seq<Chan>, r: seq<Chan>, c: Chan)
    requires FIRST_SUB <= |s| && Accounted(start, s, FIRST_SUB, w, rw, r) && c !in r
    ensures Got(w, c) == Count(start, c) == Count(s[FIRST_SUB..], c)
  {
    assert s[FIRST_SUB..FIRST_SUB] == [];
    assert AccountedFor(start, s, FIRST_SUB, w, rw, r, c);
    TimesPresent(r, c);
  }

  /** With each channel subscribed once: a channel present at the start gets the value exactly once,
      unless it was removed while still waiting, and then it gets nothing; no other channel gets
      anything; exactly the channels not removed stay subscribed; so a channel still subscribed got the value once, and
      one that got nothing was removed. */
  lemma ExactlyOnce(start: seq<Case>, s: seq<Case>, w: seq<Delivery>, rw: seq<Chan>, r: seq<Chan>, c: Chan)
    requires FIRST_SUB <= |s| && Accounted(start, s, FIRST_SUB, w, rw, r)
    requires forall i, j | 0 <= i < |start| && 0 <= j < |start| && start[i].ch == start[j].ch :: i == j
    ensures Got(w, c) == One((exists i :: 0 <= i < |start| && start[i].ch == c) && c !in rw)
    ensures (exists i :: FIRST_SUB <= i < |s| && s[i].ch == c) <==>
              (exists i :: 0 <= i < |start| && start[i].ch == c) && c !in r
    ensures (exists i :: FIRST_SUB <= i < |s| && s[i].ch == c) ==> Got(w, c) == 1
    ensures (exists i :: 0 <= i < |start| && start[i].ch == c) && Got(w, c) == 0 ==> c in r
  {
    assert s[FIRST_SUB..FIRST_SUB] == [];
    assert AccountedFor(start, s, FIRST_SUB, w, rw, r, c);
    CountPresent(start, c);
    CountPresent(s[FIRST_SUB..], c);
    CountDistinct(start, c);
    TimesPresent(rw, c);
    TimesPresent(r, c);
    if i :| FIRST_SUB <= i < |s| && s[i].ch == c {
      assert s[FIRST_SUB..][i - 1].ch == c;
    }
    if i :| 0 <= i < |s[FIRST_SUB..]| && s[FIRST_SUB..][i].ch == c {
      assert s[i + 1].ch == c;
    }
  }

  lemma {:induction false} CountPresent(s: seq<Case>, c: Chan)
    ensures Count(s, c) > 0 <==> exists i :: 0 <= i < |s| && s[i].ch == c
  {
    if s != [] {
      var f := s[..|s| - 1];
      CountPresent(f, c);
      assert forall i | 0 <= i < |f| :: f[i] == s[i];
    }
  }

  lemma {:induction false} CountDistinct(s: seq<Case>, c: Chan)
    requires forall i, j | 0 <= i < |s| && 0 <= j < |s| && s[i].ch == s[j].ch :: i == j
    ensures Count(s, c) <= 1
  {
    if s != [] {
      var f := s[..|s| - 1];
      CountDistinct(f, c);
      CountPresent(f, c);
      assert forall i | 0 <= i < |f| :: f[i] == s[i];
    }
  }

  lemma {:induction false} TimesPresent(r: seq<Chan>, c: Chan)
    ensures Times(r, c) > 0 <==> c in r
  {
    if r != [] {
      TimesPresent(r[..|r| - 1], c);
      assert r == r[..|r| - 1] + [r[|r| - 1]];
    }
  }
}
