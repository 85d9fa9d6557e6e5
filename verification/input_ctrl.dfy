/**
 * The legacy elementary-stream selection table (src/input/input_ctrl.c).
 *
 * An input thread owns two fixed-capacity arrays: the table of elementary
 * streams `p_es`, and `pp_selected_es`, whose slots point at the entries
 * being demultiplexed. A slot is modelled as the index of the entry it
 * points at, or None for NULL. input_AddPgrmElem selects a stream by id and
 * spawns its decoder; input_DelPgrmElem drops it again.
 *
 * Decoder creation is an oracle: `spawned` is what adec_CreateThread or
 * vdec_CreateThread returned. Thread teardown, the es_lock mutex and the
 * log messages are not modelled.
 */
module InputCtrl {
  import opened Wrappers

  /** An opaque handle to a running decoder thread (p_dec). */
  type Decoder = nat
  /** An opaque handle to a PES packet being reassembled (p_pes_packet). */
  type PesPacket = nat

  /** i_type: the four MPEG kinds that have a decoder, and every other code. */
  datatype EsType = Mpeg1Audio | Mpeg2Audio | Mpeg1Video | Mpeg2Video | OtherType(code: int)

  /** One entry of p_es, with the fields the selection functions touch. */
  datatype Es = Es(
    id: int,
    esType: EsType,
    psi: bool,
    dec: Option<Decoder>,
    pesPacket: Option<PesPacket>,
    continuityCounter: int,
    random: bool)

  /** The return value of a call and the two tables after it. */
  datatype Outcome = Outcome(ret: int, es: seq<Es>, selected: seq<Option<nat>>)

  /** The types the decoder switch has a case for. */
  predicate Decodable(t: EsType)
  {
    t.Mpeg1Audio? || t.Mpeg2Audio? || t.Mpeg1Video? || t.Mpeg2Video?
  }

  /** The entry with its new decoder and its demultiplexer state reset. */
  function Reset(e: Es, dec: Option<Decoder>): Es
  {
    e.(dec := dec, pesPacket := None, continuityCounter := 0, random := false)
  }

  /** Every occupied slot points into the table of streams. */
  ghost predicate SlotsValid(es: seq<Es>, sel: seq<Option<nat>>)
  {
    forall h :: 0 <= h < |sel| && sel[h].Some? ==> sel[h].value < |es|
  }

  /** Slot `s` points at an entry whose id is `id`. */
  predicate Refers(es: seq<Es>, s: Option<nat>, id: int)
  {
    s.Some? && s.value < |es| && es[s.value].id == id
  }

  /** The first entry at or after `i` whose id is `id`. */
  function FindEsFrom(es: seq<Es>, id: int, i: nat): (k: Option<nat>)
    requires i <= |es|
    decreases |es| - i
    ensures k.Some? ==> i <= k.value < |es| && es[k.value].id == id
                        && forall j :: i <= j < k.value ==> es[j].id != id
    ensures k.None? ==> forall j :: i <= j < |es| ==> es[j].id != id
  {
    if i == |es| then None
    else if es[i].id == id then Some(i)
    else FindEsFrom(es, id, i + 1)
  }

  function FindEs(es: seq<Es>, id: int): (k: Option<nat>)
    ensures k.Some? ==> k.value < |es| && es[k.value].id == id
                        && forall j :: 0 <= j < k.value ==> es[j].id != id
    ensures k.None? ==> forall j :: 0 <= j < |es| ==> es[j].id != id
  {
    FindEsFrom(es, id, 0)
  }

  /** The first empty slot at or after `i`. */
  function FirstFreeFrom(sel: seq<Option<nat>>, i: nat): (f: Option<nat>)
    requires i <= |sel|
    decreases |sel| - i
    ensures f.Some? ==> i <= f.value < |sel| && sel[f.value].None?
                        && forall j :: i <= j < f.value ==> sel[j].Some?
    ensures f.None? ==> forall j :: i <= j < |sel| ==> sel[j].Some?
  {
    if i == |sel| then None
    else if sel[i].None? then Some(i)
    else FirstFreeFrom(sel, i + 1)
  }

  /** The first empty slot, found without reading past the end of the table. */
  function FirstFree(sel: seq<Option<nat>>): (f: Option<nat>)
    ensures f.Some? ==> f.value < |sel| && sel[f.value].None?
                        && forall j :: 0 <= j < f.value ==> sel[j].Some?
    ensures f.None? ==> forall j :: 0 <= j < |sel| ==> sel[j].Some?
  {
    FirstFreeFrom(sel, 0)
  }

  /** The first slot at or after `i` that points at an entry with id `id`. */
  function FindSelectedFrom(es: seq<Es>, sel: seq<Option<nat>>, id: int, i: nat): (h: Option<nat>)
    requires i <= |sel|
    decreases |sel| - i
    ensures h.Some? ==> i <= h.value < |sel| && Refers(es, sel[h.value], id)
                        && forall j :: i <= j < h.value ==> !Refers(es, sel[j], id)
    ensures h.None? ==> forall j :: i <= j < |sel| ==> !Refers(es, sel[j], id)
  {
    if i == |sel| then None
    else if Refers(es, sel[i], id) then Some(i)
    else FindSelectedFrom(es, sel, id, i + 1)
  }

  function FindSelected(es: seq<Es>, sel: seq<Option<nat>>, id: int): (h: Option<nat>)
    ensures h.Some? ==> h.value < |sel| && Refers(es, sel[h.value], id)
                        && forall j :: 0 <= j < h.value ==> !Refers(es, sel[j], id)
    ensures h.None? ==> forall j :: 0 <= j < |sel| ==> !Refers(es, sel[j], id)
  {
    FindSelectedFrom(es, sel, id, 0)
  }

  /**
   * input_AddPgrmElem on the tables as values. Only the first entry with
   * the id is considered. It fails, changing nothing, when that entry
   * already has a decoder, when every slot is taken, when the stream is
   * PSI, when its type has no decoder, or when the decoder cannot be
   * created. Otherwise the entry gets the decoder and a fresh demultiplexer
   * state and the first empty slot points at it.
   */
  function Add(es: seq<Es>, sel: seq<Option<nat>>, id: int, spawned: Option<Decoder>): (r: Outcome)
    ensures r.ret == 0 || r.ret == -1
    ensures r.ret == -1 ==> r.es == es && r.selected == sel
    ensures (forall j :: 0 <= j < |es| ==> es[j].id != id) ==> r.ret == -1
    ensures (forall j :: 0 <= j < |sel| ==> sel[j].Some?) ==> r.ret == -1
    ensures spawned.None? ==> r.ret == -1
    ensures r.ret == 0 <==>
      FindEs(es, id).Some? && FirstFree(sel).Some? && spawned.Some?
      && es[FindEs(es, id).value].dec.None?
      && !es[FindEs(es, id).value].psi
      && Decodable(es[FindEs(es, id).value].esType)
    ensures r.ret == 0 ==>
      var k, f := FindEs(es, id).value, FirstFree(sel).value;
      r.es == es[k := Reset(es[k], spawned)] && r.selected == sel[f := Some(k)]
  {
    var failed := Outcome(-1, es, sel);
    match FindEs(es, id)
    case None => failed
    case Some(k) =>
      if es[k].dec.Some? then failed
      else
        match FirstFree(sel)
        case None => failed
        case Some(f) =>
          if es[k].psi || !Decodable(es[k].esType) || spawned.None? then failed
          else Outcome(0, es[k := Reset(es[k], spawned)], sel[f := Some(k)])
  }

  /**
   * The second scan of input_DelPgrmElem stays within the table: after the
   * slot it removes there is an empty one.
   */
  predicate DelScanInBounds(es: seq<Es>, sel: seq<Option<nat>>, id: int)
  {
    match FindSelected(es, sel, id)
    case None => true
    case Some(h) =>
      es[sel[h].value].dec.Some? ==> FirstFreeFrom(sel, h).Some?
  }

  /**
   * input_DelPgrmElem on the tables as values. The first slot pointing at
   * an entry with the id decides. If that entry has no decoder it fails
   * and changes nothing. Otherwise the entry loses its decoder and the
   * "exchange" copies the first empty slot after it over it: the slot
   * becomes empty and every other slot keeps its entry.
   */
  function Del(es: seq<Es>, sel: seq<Option<nat>>, id: int): (r: Outcome)
    requires DelScanInBounds(es, sel, id)
    ensures r.ret == 0 || r.ret == -1
    ensures r.ret == -1 ==> r.es == es && r.selected == sel
    ensures (forall j :: 0 <= j < |sel| ==> !Refers(es, sel[j], id)) ==> r.ret == -1
    ensures FindSelected(es, sel, id).Some? ==>
      var h := FindSelected(es, sel, id).value;
      var k := sel[h].value;
      (r.ret == 0 <==> es[k].dec.Some?)
      && (r.ret == 0 ==> r.es == es[k := es[k].(dec := None)] && r.selected == sel[h := None])
  {
    match FindSelected(es, sel, id)
    case None => Outcome(-1, es, sel)
    case Some(h) =>
      var k := sel[h].value;
      if es[k].dec.None? then Outcome(-1, es, sel)
      else
        var l := FirstFreeFrom(sel, h).value;
        Outcome(0, es[k := es[k].(dec := None)], sel[h := sel[l]][l := None])
  }

  /**
   * input_AddPgrmElem over the two arrays. The free-slot scan tests the
   * bound before it reads the slot (see Findings in README.md).
   */
  method AddPgrmElem(es: array<Es>, selected: array<Option<nat>>, id: int, spawned: Option<Decoder>)
    returns (ret: int)
    modifies es, selected
    ensures Outcome(ret, es[..], selected[..]) == Add(old(es[..]), old(selected[..]), id, spawned)
  {
    var i := 0;
    while i < es.Length
      invariant 0 <= i <= es.Length
      invariant FindEsFrom(es[..], id, i) == FindEs(es[..], id)
    {
      if es[i].id == id {
        if es[i].dec.Some? {
          return -1;
        }
        var s := 0;
        while s < selected.Length && selected[s].Some?
          invariant 0 <= s <= selected.Length
          invariant FirstFreeFrom(selected[..], s) == FirstFree(selected[..])
        {
          s := s + 1;
        }
        if s == selected.Length {
          return -1;
        }
        if es[i].psi {
          return -1;
        }
        match es[i].esType {
          case Mpeg1Audio =>
          case Mpeg2Audio =>
          case Mpeg1Video =>
          case Mpeg2Video =>
          case OtherType(_) =>
            return -1;
        }
        if spawned.None? {
          return -1;
        }
        es[i] := Reset(es[i], spawned);
        selected[s] := Some(i);
        return 0;
      }
      i := i + 1;
    }
    return -1;
  }

  /**
   * input_DelPgrmElem over the two arrays, with both scans as written: the
   * second one reads a slot before it tests the bound, which the
   * precondition keeps inside the table.
   */
  method DelPgrmElem(es: array<Es>, selected: array<Option<nat>>, id: int)
    returns (ret: int)
    requires SlotsValid(es[..], selected[..])
    requires DelScanInBounds(es[..], selected[..], id)
    modifies es, selected
    ensures Outcome(ret, es[..], selected[..]) == Del(old(es[..]), old(selected[..]), id)
  {
    var h := 0;
    while h < selected.Length
      invariant 0 <= h <= selected.Length
      invariant FindSelectedFrom(es[..], selected[..], id, h) == FindSelected(es[..], selected[..], id)
    {
      if selected[h].Some? {
        var k := selected[h].value;
        if es[k].id == id {
          if es[k].dec.None? {
            return -1;
          }
          ghost var free := FirstFreeFrom(selected[..], h).value;
          es[k] := es[k].(dec := None);
          var l := h;
          while selected[l].Some? && l < selected.Length
            invariant h <= l <= free
            invariant FirstFreeFrom(selected[..], l) == Some(free)
          {
            l := l + 1;
          }
          selected[h] := selected[l];
          selected[l] := None;
          return 0;
        }
      }
      h := h + 1;
    }
    return -1;
  }

  /**
   * The table invariant the two operations keep: slots point into the
   * table, no two slots point at the same entry, and an entry has a
   * decoder exactly when a slot points at it.
   */
  ghost predicate Consistent(es: seq<Es>, sel: seq<Option<nat>>)
  {
    SlotsValid(es, sel)
    && (forall h1, h2 :: 0 <= h1 < h2 < |sel| && sel[h1].Some? ==> sel[h1] != sel[h2])
    && (forall k :: 0 <= k < |es| ==> (es[k].dec.Some? <==> Some(k) in sel))
  }

  lemma AddKeepsConsistent(es: seq<Es>, sel: seq<Option<nat>>, id: int, spawned: Option<Decoder>)
    requires Consistent(es, sel)
    ensures Consistent(Add(es, sel, id, spawned).es, Add(es, sel, id, spawned).selected)
  {
    var r := Add(es, sel, id, spawned);
    if r.ret == 0 {
      var k, f := FindEs(es, id).value, FirstFree(sel).value;
      assert Some(k) !in sel;
      forall k' | 0 <= k' < |es|
        ensures r.es[k'].dec.Some? <==> Some(k') in r.selected
      {
        if k' != k {
          assert Some(k') in r.selected <==> Some(k') in sel by {
            if Some(k') in sel {
              var j :| 0 <= j < |sel| && sel[j] == Some(k');
              assert r.selected[j] == Some(k');
            }
            if Some(k') in r.selected {
              var j :| 0 <= j < |r.selected| && r.selected[j] == Some(k');
              assert sel[j] == Some(k');
            }
          }
        } else {
          assert r.selected[f] == Some(k);
        }
      }
    }
  }

  lemma DelKeepsConsistent(es: seq<Es>, sel: seq<Option<nat>>, id: int)
    requires Consistent(es, sel)
    requires DelScanInBounds(es, sel, id)
    ensures Consistent(Del(es, sel, id).es, Del(es, sel, id).selected)
  {
    var r := Del(es, sel, id);
    if r.ret == 0 {
      var h := FindSelected(es, sel, id).value;
      var k := sel[h].value;
      forall k' | 0 <= k' < |es|
        ensures r.es[k'].dec.Some? <==> Some(k') in r.selected
      {
        if Some(k') in r.selected {
          var j :| 0 <= j < |r.selected| && r.selected[j] == Some(k');
          assert j != h && sel[j] == Some(k');
          assert k' != k;
        }
        if k' != k && Some(k') in sel {
          var j :| 0 <= j < |sel| && sel[j] == Some(k');
          assert r.selected[j] == Some(k');
        }
      }
    }
  }

  /**
   * Selecting a stream that no slot refers to and then dropping it again
   * gives back the selection table unchanged, and the entry keeps only
   * the demultiplexer state Add reset. The drop needs a second empty slot
   * after the one Add filled.
   */
  lemma {:induction false} AddThenDel(es: seq<Es>, sel: seq<Option<nat>>, id: int, spawned: Option<Decoder>)
    requires FindSelected(es, sel, id).None?
    requires Add(es, sel, id, spawned).ret == 0
    requires FirstFreeFrom(sel, FirstFree(sel).value + 1).Some?
    ensures DelScanInBounds(Add(es, sel, id, spawned).es, Add(es, sel, id, spawned).selected, id)
    ensures Del(Add(es, sel, id, spawned).es, Add(es, sel, id, spawned).selected, id).ret == 0
    ensures Del(Add(es, sel, id, spawned).es, Add(es, sel, id, spawned).selected, id).selected == sel
    ensures var k := FindEs(es, id).value;
      Del(Add(es, sel, id, spawned).es, Add(es, sel, id, spawned).selected, id).es == es[k := Reset(es[k], None)]
  {
    var a := Add(es, sel, id, spawned);
    var k, f := FindEs(es, id).value, FirstFree(sel).value;
    assert Refers(a.es, a.selected[f], id);
    forall j | 0 <= j < f
      ensures !Refers(a.es, a.selected[j], id)
    {
      assert !Refers(es, sel[j], id);
    }
    assert FindSelected(a.es, a.selected, id) == Some(f);
    var l := FirstFreeFrom(sel, f + 1).value;
    assert a.selected[l].None?;
    assert FirstFreeFrom(a.selected, f).Some?;
    var d := Del(a.es, a.selected, id);
    assert d.selected == a.selected[f := None];
    assert d.selected == sel;
  }

  /**
   * The free-slot scan of input_AddPgrmElem as written: it reads slot `i`
   * and only then tests `i` against the capacity. The result is the index
   * where the scan stops and whether it read the slot one past the end.
   */
  datatype ScanTrace = ScanTrace(stop: nat, readPastEnd: bool)

  function ScanAsWritten(sel: seq<Option<nat>>, i: nat): (t: ScanTrace)
    requires i <= |sel|
    decreases |sel| - i
    ensures i <= t.stop <= |sel|
    ensures t.readPastEnd <==> t.stop == |sel|
  {
    if i == |sel| then ScanTrace(i, true)
    else if sel[i].None? then ScanTrace(i, false)
    else ScanAsWritten(sel, i + 1)
  }

  /**
   * The scan as written reads past the end exactly when every slot is
   * taken; otherwise it stops where the bounds-first scan finds the first
   * empty slot.
   */
  lemma {:induction false} ScanAsWrittenReadsPastEnd(sel: seq<Option<nat>>, i: nat)
    requires i <= |sel|
    decreases |sel| - i
    ensures ScanAsWritten(sel, i).readPastEnd <==> FirstFreeFrom(sel, i).None?
    ensures !ScanAsWritten(sel, i).readPastEnd ==> FirstFreeFrom(sel, i) == Some(ScanAsWritten(sel, i).stop)
  {
    if i < |sel| && sel[i].Some? {
      ScanAsWrittenReadsPastEnd(sel, i + 1);
    }
  }

  /** A table of two slots, both taken: the scan reads the third. */
  lemma FullTableScanReadsPastEnd()
    ensures ScanAsWritten([Some(0), Some(1)], 0) == ScanTrace(2, true)
    ensures FirstFree([Some(0), Some(1)]).None?
  {
    assert ScanAsWritten([Some(0), Some(1)], 1) == ScanAsWritten([Some(0), Some(1)], 2);
  }
}
