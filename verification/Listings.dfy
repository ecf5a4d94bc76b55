/** Queries ordered by sequence, over any table whose rows have a sequence and show a payload. */
module Listings {
  import opened PyValues

  /** A row as a query sees it. */
  datatype Entry = Entry(sequence: nat, shown: Obj)

  type View = map<string, Entry>

  function Members(out: seq<string>): set<string> {
    set id | id in out
  }

  /** The ids of a selection ordered by sequence. */
  predicate InOrder(view: View, selected: set<string>, out: seq<string>) {
    Members(out) == selected && (forall id :: id in out ==> id in view) &&
    forall i, j :: 0 <= i < j < |out| ==> view[out[i]].sequence < view[out[j]].sequence
  }

  function Shown(view: View, out: seq<string>): seq<Obj>
    requires forall id :: id in out ==> id in view
  {
    if out == [] then [] else [view[out[0]].shown] + Shown(view, out[1..])
  }

  /** What the query may return. */
  ghost predicate Lists(view: View, selected: set<string>, reply: seq<Obj>) {
    exists out :: InOrder(view, selected, out) && reply == Shown(view, out)
  }

  /* Two tables that order and show a selection alike list it alike. */

  predicate Alike(v: View, w: View, selected: set<string>) {
    selected <= v.Keys && selected <= w.Keys &&
    (forall id :: id in selected ==> v[id].shown == w[id].shown) &&
    forall a, b :: a in selected && b in selected ==> (v[a].sequence < v[b].sequence <==> w[a].sequence < w[b].sequence)
  }

  lemma OrderTransfers(v: View, w: View, selected: set<string>, out: seq<string>)
    requires Alike(v, w, selected) && InOrder(v, selected, out)
    ensures InOrder(w, selected, out) && Shown(v, out) == Shown(w, out)
  {
    assert forall id :: id in out ==> id in Members(out);
    hide Members;
    forall i, j | 0 <= i < j < |out| ensures w[out[i]].sequence < w[out[j]].sequence {
      assert v[out[i]].sequence < v[out[j]].sequence;
    }
    ShownAlike(v, w, out);
  }

  lemma {:induction false} ShownAlike(v: View, w: View, out: seq<string>)
    requires forall id :: id in out ==> id in v && id in w && v[id].shown == w[id].shown
    ensures Shown(v, out) == Shown(w, out)
  {
    if out == [] {
    } else {
      ShownAlike(v, w, out[1..]);
    }
  }

  lemma ListsTransfer(v: View, w: View, selected: set<string>, reply: seq<Obj>)
    requires Alike(v, w, selected) && Lists(v, selected, reply)
    ensures Lists(w, selected, reply)
  {
    var out :| InOrder(v, selected, out) && reply == Shown(v, out);
    OrderTransfers(v, w, selected, out);
  }

  /** There is only one order. */
  lemma {:induction false} OneOrder(view: View, selected: set<string>, out: seq<string>, out': seq<string>)
    requires InOrder(view, selected, out) && InOrder(view, selected, out')
    ensures out == out'
    decreases |out|
  {
    Elements(out);
    Elements(out');
    if out == [] {
    } else {
      SameFirst(view, selected, out, out');
      Rest(view, selected, out);
      Rest(view, selected, out');
      hide InOrder;
      OneOrder(view, selected - {out[0]}, out[1..], out'[1..]);
      assert out == [out[0]] + out[1..] && out' == [out'[0]] + out'[1..];
    }
  }

  lemma Elements(out: seq<string>)
    ensures Members(out) == {} ==> out == []
    ensures out != [] ==> out[0] in Members(out)
  {
    if out == [] {
    } else {
      assert out[0] in out;
      assert out[0] in Members(out);
    }
  }

  lemma SameFirst(view: View, selected: set<string>, out: seq<string>, out': seq<string>)
    requires InOrder(view, selected, out) && InOrder(view, selected, out') && out != [] && out' != []
    ensures out[0] == out'[0]
  {
    assert (forall id :: id in out <==> id in selected) && forall id :: id in out' <==> id in selected;
    assert out[0] in out' && out'[0] in out;
    var i :| 0 <= i < |out| && out[i] == out'[0];
    var j :| 0 <= j < |out'| && out'[j] == out[0];
  }

  lemma Rest(view: View, selected: set<string>, out: seq<string>)
    requires InOrder(view, selected, out) && out != []
    ensures InOrder(view, selected - {out[0]}, out[1..])
  {
    assert forall id :: id in out <==> id in selected;
    forall id | id in selected - {out[0]} ensures id in out[1..] {
      var i :| 0 <= i < |out| && out[i] == id;
      assert out[1..][i - 1] == id;
    }
    assert forall i :: 0 <= i < |out[1..]| ==> out[1..][i] == out[i + 1];
  }

  /** So a query has at most one reply. */
  lemma OneReply(view: View, selected: set<string>, a: seq<Obj>, b: seq<Obj>)
    requires Lists(view, selected, a) && Lists(view, selected, b)
    ensures a == b
  {
    var out :| InOrder(view, selected, out) && a == Shown(view, out);
    var out' :| InOrder(view, selected, out') && b == Shown(view, out');
    OneOrder(view, selected, out, out');
  }

  /* `ORDER BY sequence`. */

  /** No two rows have the same sequence. */
  predicate Ranked(view: View) {
    forall a, b :: a in view && b in view && view[a].sequence == view[b].sequence ==> a == b
  }

  lemma {:induction false} Least(view: View, ids: set<string>) returns (m: string)
    requires ids != {} && ids <= view.Keys
    ensures m in ids && forall x :: x in ids ==> view[m].sequence <= view[x].sequence
  {
    m :| m in ids;
    var others := ids - {m};
    assert forall x :: x in ids <==> x == m || x in others;
    if others == {} {
    } else {
      var n := Least(view, others);
      m := if view[m].sequence < view[n].sequence then m else n;
    }
  }

  method OrderBy(view: View, selected: set<string>) returns (out: seq<string>)
    requires Ranked(view) && selected <= view.Keys
    ensures InOrder(view, selected, out)
  {
    var remaining := selected;
    out := [];
    while remaining != {}
      invariant remaining <= selected
      invariant forall id :: id in out <==> id in selected - remaining
      invariant forall id :: id in out ==> id in view
      invariant forall i, j :: 0 <= i < j < |out| ==> view[out[i]].sequence < view[out[j]].sequence
      invariant forall i, x :: 0 <= i < |out| && x in remaining ==> view[out[i]].sequence < view[x].sequence
      decreases remaining
    {
      ghost var least := Least(view, remaining);
      var m :| m in remaining && forall x :: x in remaining ==> view[m].sequence <= view[x].sequence;
      out := out + [m];
      remaining := remaining - {m};
    }
    assert Members(out) == selected;
  }

  /** The selected rows in the order of their sequence. */
  method List(view: View, selected: set<string>) returns (reply: seq<Obj>)
    requires Ranked(view) && selected <= view.Keys
    ensures Lists(view, selected, reply)
  {
    hide Ranked, Members;
    var out := OrderBy(view, selected);
    reply := [];
    for i := 0 to |out|
      invariant reply + Shown(view, out[i..]) == Shown(view, out)
    {
      reply := reply + [view[out[i]].shown];
    }
  }
}
