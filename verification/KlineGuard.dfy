/** The revision guard on candlestick upserts: `ON CONFLICT ... DO UPDATE ... WHERE`. */
module KlineGuard {
  import opened MarketModel

  /** May message `k` overwrite the stored `row`? */
  predicate Overwrites(row: Kline, k: Kline) {
    || (!row.isClosed && k.revision >= row.revision)
    || (row.isClosed && k.revision > row.revision && k.isClosed)
  }

  /** One upsert against the row stored under the message's key, if any. */
  function Upsert(row: Option<Kline>, k: Kline): Option<Kline> {
    if row.None? || Overwrites(row.value, k) then Some(k) else row
  }

  /** The row left after writing `ks` in order on top of `row`. */
  function UpsertAll(row: Option<Kline>, ks: seq<Kline>): Option<Kline> {
    if ks == [] then row else Upsert(UpsertAll(row, ks[..|ks| - 1]), ks[|ks| - 1])
  }

  /** The table after one message: only the message's own key can change. */
  function UpsertTable(table: map<KlineKey, Kline>, k: Kline): map<KlineKey, Kline> {
    if k.key in table && !Overwrites(table[k.key], k) then table else table[k.key := k]
  }

  function UpsertTableAll(table: map<KlineKey, Kline>, ks: seq<Kline>): map<KlineKey, Kline> {
    if ks == [] then table
    else UpsertTable(UpsertTableAll(table, ks[..|ks| - 1]), ks[|ks| - 1])
  }

  function Lookup(table: map<KlineKey, Kline>, key: KlineKey): Option<Kline> {
    if key in table then Some(table[key]) else None
  }

  function WithKey(ks: seq<Kline>, key: KlineKey): seq<Kline> {
    if ks == [] then []
    else WithKey(ks[..|ks| - 1], key) + (if ks[|ks| - 1].key == key then [ks[|ks| - 1]] else [])
  }

  /** A table write sequence is, key by key, the single-row history of that key. */
  lemma {:induction false} TableIsRowwise(table: map<KlineKey, Kline>, ks: seq<Kline>, key: KlineKey)
    ensures Lookup(UpsertTableAll(table, ks), key) == UpsertAll(Lookup(table, key), WithKey(ks, key))
  {
    if ks != [] {
      var n := |ks| - 1;
      TableIsRowwise(table, ks[..n], key);
      if ks[n].key == key {
        assert WithKey(ks, key)[..|WithKey(ks, key)| - 1] == WithKey(ks[..n], key);
      } else {
        assert WithKey(ks, key) == WithKey(ks[..n], key);
      }
    }
  }

  /** Over any write sequence: a row never disappears, a closed row never reopens, and
      the stored revision never goes down. */
  lemma {:induction false} ClosedAndRevisionAreMonotone(row: Option<Kline>, ks: seq<Kline>)
    requires row.Some?
    ensures UpsertAll(row, ks).Some?
    ensures row.value.isClosed ==> UpsertAll(row, ks).value.isClosed
    ensures UpsertAll(row, ks).value.revision >= row.value.revision
  {
    if ks != [] {
      ClosedAndRevisionAreMonotone(row, ks[..|ks| - 1]);
    }
  }

  /** `w` wins against `k` whichever of the two is written first. */
  predicate Beats(w: Kline, k: Kline) {
    if w.isClosed then
      if k.isClosed then k.revision < w.revision else k.revision <= w.revision
    else
      !k.isClosed && k.revision < w.revision
  }

  /** Some message of the set beats every other one. */
  ghost predicate Decided(ks: set<Kline>) {
    exists w :: w in ks && forall k :: k in ks && k != w ==> Beats(w, k)
  }

  function Elements(ks: seq<Kline>): set<Kline> {
    set k | k in ks
  }

  /** Every ordering and duplication of the messages `ks` leaves the same row. */
  ghost predicate Converges(ks: set<Kline>) {
    forall s: seq<Kline>, t: seq<Kline> ::
      Elements(s) == ks && Elements(t) == ks ==> UpsertAll(None, s) == UpsertAll(None, t)
  }

  /** The stored row always is one of the messages written (or the row before them). */
  lemma {:induction false} RowComesFromMessages(row: Option<Kline>, ks: seq<Kline>)
    ensures var r := UpsertAll(row, ks); r == row || (r.Some? && r.value in ks)
    ensures ks != [] ==> UpsertAll(row, ks).Some?
  {
    if ks != [] {
      RowComesFromMessages(row, ks[..|ks| - 1]);
    }
  }

  /** A winner that occurs in the sequence is what is stored in the end. */
  lemma {:induction false} WinnerIsStored(ks: seq<Kline>, w: Kline)
    requires w in ks
    requires forall k :: k in ks && k != w ==> Beats(w, k)
    ensures UpsertAll(None, ks) == Some(w)
  {
    var n := |ks| - 1;
    if w in ks[..n] {
      WinnerIsStored(ks[..n], w);
      assert ks[n] in ks;
    } else {
      RowComesFromMessages(None, ks[..n]);
      assert ks == ks[..n] + [ks[n]];
      assert ks[n] == w;
      var r := UpsertAll(None, ks[..n]);
      assert r.Some? ==> r.value in ks && Beats(w, r.value);
    }
  }

  /** A first message that `w` does not beat keeps `w` from being the final row. */
  lemma {:induction false} UnbeatenFirstBlocks(k: Kline, ks: seq<Kline>, w: Kline)
    requires k != w && !Beats(w, k) && (w.isClosed || k.isClosed)
    ensures UpsertAll(Some(k), ks) != Some(w)
  {
    if ks != [] {
      UnbeatenFirstBlocks(k, ks[..|ks| - 1], w);
      ClosedAndRevisionAreMonotone(Some(k), ks[..|ks| - 1]);
    }
  }

  lemma {:induction false} FirstThenRest(k: Kline, ks: seq<Kline>)
    ensures UpsertAll(None, [k] + ks) == UpsertAll(Some(k), ks)
  {
    if ks == [] {
      assert [k] + ks == [k];
      assert UpsertAll(None, [k][..0]) == None;
    } else {
      FirstThenRest(k, ks[..|ks| - 1]);
      assert ([k] + ks)[..|ks|] == [k] + ks[..|ks| - 1];
    }
  }

  /** A set of messages has at least one ordering. */
  lemma Ordering(ks: set<Kline>) returns (s: seq<Kline>)
    ensures Elements(s) == ks
  {
    if ks == {} {
      s := [];
    } else {
      var k :| k in ks;
      var rest := Ordering(ks - {k});
      s := rest + [k];
      assert forall x :: x in s <==> x in rest || x == k;
      assert forall x :: x in rest <==> x in Elements(rest);
    }
  }

  /** Convergence, exactly: order and duplication do not matter if and only if one of the
      messages beats all the others. */
  lemma {:induction false} ConvergesExactlyWhenDecided(ks: set<Kline>)
    ensures Converges(ks) <==> ks == {} || Decided(ks)
  {
    if ks == {} {
      assert forall s: seq<Kline> :: s != [] ==> s[0] in Elements(s);
    } else {
      if Decided(ks) {
        DecidedConverges(ks);
      }
      if Converges(ks) {
        ConvergentIsDecided(ks);
      }
    }
  }

  lemma {:induction false} DecidedConverges(ks: set<Kline>)
    requires Decided(ks)
    ensures Converges(ks)
  {
    var w :| w in ks && forall k :: k in ks && k != w ==> Beats(w, k);
    forall s: seq<Kline> | Elements(s) == ks
      ensures UpsertAll(None, s) == Some(w)
    {
      assert forall k :: k in s <==> k in Elements(s);
      WinnerIsStored(s, w);
    }
  }

  lemma {:induction false} ConvergentIsDecided(ks: set<Kline>)
    requires ks != {} && Converges(ks)
    ensures Decided(ks)
  {
    var s := Ordering(ks);
    assert forall k :: k in s <==> k in Elements(s);
    var any :| any in ks;
    assert s != [];
    RowComesFromMessages(None, s);
    var w := UpsertAll(None, s).value;
    forall k | k in ks && k != w
      ensures Beats(w, k)
    {
      assert Elements([k] + s) == ks;
      assert Elements(s + [k]) == ks;
      assert (s + [k])[..|s|] == s;
      FirstThenRest(k, s);
      if !Beats(w, k) && (w.isClosed || k.isClosed) {
        UnbeatenFirstBlocks(k, s, w);
      }
    }
  }

  /** What producers are asked for: revision and closedness determine the content, and no
      open revision is above the largest closed one. */
  ghost predicate WellRevised(ks: set<Kline>) {
    && (forall j, k :: j in ks && k in ks && j.isClosed == k.isClosed && j.revision == k.revision ==> j == k)
    && (forall j, k :: j in ks && k in ks && j.isClosed && !k.isClosed ==>
          exists c :: c in ks && c.isClosed && k.revision <= c.revision)
  }

  lemma Largest(ks: set<Kline>) returns (top: Kline)
    requires ks != {}
    ensures top in ks && forall k :: k in ks ==> k.revision <= top.revision
  {
    top :| top in ks;
    var rest := ks - {top};
    if rest != {} {
      var other := Largest(rest);
      if other.revision > top.revision {
        top := other;
      }
    }
  }

  /** Well-revised messages for one key converge under every ordering and duplication. */
  lemma {:induction false} WellRevisedConverges(ks: set<Kline>)
    requires WellRevised(ks)
    ensures Converges(ks)
  {
    if ks != {} {
      var closed := set k | k in ks && k.isClosed;
      var w := Largest(if closed != {} then closed else ks);
      forall k | k in ks && k != w
        ensures Beats(w, k)
      {
        if k.isClosed {
          assert k in closed;
        } else if w.isClosed {
          var c :| c in ks && c.isClosed && k.revision <= c.revision;
          assert c in closed;
        }
      }
      assert Decided(ks);
    }
    ConvergesExactlyWhenDecided(ks);
  }

  // ---- which row is left ------------------------------------------------------------

  /** Message `i` is closed, and no earlier message has a higher revision. */
  predicate Enters(ks: seq<Kline>, i: nat) {
    i < |ks| && ks[i].isClosed && forall j :: 0 <= j < i ==> ks[j].revision <= ks[i].revision
  }

  /** Message `w` is the first of the largest revision among the closed ones. */
  ghost predicate FirstLargestClosed(ks: seq<Kline>, w: nat) {
    && w < |ks| && ks[w].isClosed
    && (forall j :: 0 <= j < |ks| && ks[j].isClosed ==> ks[j].revision <= ks[w].revision)
    && (forall j :: 0 <= j < w && ks[j].isClosed ==> ks[j].revision < ks[w].revision)
  }

  /** Message `w` is the last of the largest revision, and open. */
  ghost predicate LastLargestOpen(ks: seq<Kline>, w: nat) {
    && w < |ks| && !ks[w].isClosed
    && (forall j :: 0 <= j < |ks| ==> ks[j].revision <= ks[w].revision)
    && (forall j :: w < j < |ks| ==> ks[j].revision < ks[w].revision)
  }

  /** The row in closed form. If some closed message was not behind anything before it, the row is
      the first of the largest revision among all closed messages; otherwise it is the last of the
      largest revision among all messages. */
  lemma {:induction false} StoredRow(ks: seq<Kline>) returns (w: nat)
    requires ks != []
    ensures w < |ks| && UpsertAll(None, ks) == Some(ks[w])
    ensures if exists i: nat :: Enters(ks, i) then FirstLargestClosed(ks, w) else LastLargestOpen(ks, w)
  {
    var n := |ks| - 1;
    var front := ks[..n];
    if n == 0 {
      w := 0;
      assert UpsertAll(None, front) == None;
      assert ks[0].isClosed ==> Enters(ks, 0);
    } else {
      var v := StoredRow(front);
      w := if Overwrites(front[v], ks[n]) then n else v;
      assert forall j :: 0 <= j < n ==> front[j] == ks[j];
      NextRow(ks, v, w);
    }
  }

  lemma NextRow(ks: seq<Kline>, v: nat, w: nat)
    requires |ks| > 1 && v < |ks| - 1 && w == if Overwrites(ks[v], ks[|ks| - 1]) then |ks| - 1 else v
    requires var front := ks[..|ks| - 1];
      if exists i: nat :: Enters(front, i) then FirstLargestClosed(front, v) else LastLargestOpen(front, v)
    ensures if exists i: nat :: Enters(ks, i) then FirstLargestClosed(ks, w) else LastLargestOpen(ks, w)
  {
    var n := |ks| - 1;
    var front := ks[..n];
    assert forall i: nat :: i < n ==> (Enters(front, i) <==> Enters(ks, i));
    if i: nat :| Enters(front, i) {
      assert Enters(ks, i);
      assert forall j :: 0 <= j < n ==> front[j] == ks[j];
    } else {
      assert front[v] == ks[v];
      forall j | 0 <= j < n && ks[j].isClosed
        ensures ks[j].revision < ks[v].revision
      {
        assert front[j] == ks[j] && !Enters(front, j);
      }
      assert Enters(ks, n) <==> ks[n].isClosed && ks[n].revision >= ks[v].revision by {
        assert forall j :: 0 <= j < n ==> ks[j] == front[j];
      }
    }
  }

  /** In particular an open candle follows its producer: when no message is closed and revisions
      never go down, the row is the last message. */
  lemma OpenRowIsLastMessage(ks: seq<Kline>)
    requires ks != [] && forall i :: 0 <= i < |ks| ==> !ks[i].isClosed
    requires forall i, j :: 0 <= i < j < |ks| ==> ks[i].revision <= ks[j].revision
    ensures UpsertAll(None, ks) == Some(ks[|ks| - 1])
  {
    var w := StoredRow(ks);
    assert ks[w].revision <= ks[|ks| - 1].revision;
  }
}
