/** What a generated process-image plan guarantees. */
module ImageTheorems {
  import opened EsiModel
  import opened DomainLayout
  import opened ProductManifest
  import opened DomainPlan
  import opened ProcessImage

  // ----------------------------------------------------------- inside a domain

  lemma {:induction false} WidthPrefix(xs: seq<Item>, i: nat, j: nat)
    requires i <= j <= |xs|
    ensures Width(xs[..i]) <= Width(xs[..j])
    decreases j
  {
    if i < j {
      WidthPrefix(xs, i, j - 1);
      assert xs[..j] == xs[..j - 1] + [xs[j - 1]];
      Snoc(xs[..j - 1], xs[j - 1]);
    }
  }

  /** Earlier entries end before later ones start. */
  lemma LaidApart(xs: seq<Item>, i: nat, j: nat)
    requires i < j < |xs|
    ensures Laid(xs)[i].bitOffset + Laid(xs)[i].bitLength <= Laid(xs)[j].bitOffset
  {
    hide Laid, Width;
    LaidStep(xs, i);
    LaidStep(xs, j);
    WidthPrefix(xs, i + 1, j);
  }

  /** Entry `k` of a domain: outputs lie before the split, inputs after it. */
  lemma LaidOnItsSide(rx: seq<Item>, tx: seq<Item>, k: nat)
    requires k < |rx + tx|
    requires forall x :: x in rx ==> x.direction == Rx
    requires forall x :: x in tx ==> x.direction == Tx
    ensures var e := Laid(rx + tx)[k];
            && (k < |rx| ==> e.direction == Rx && e.bitOffset + e.bitLength <= Width(rx))
            && (k >= |rx| ==> e.direction == Tx && Width(rx) <= e.bitOffset)
            && e.bitOffset + e.bitLength <= Width(rx + tx)
  {
    var xs := rx + tx;
    LaidStep(xs, k);
    LaidAt(xs, k);
    hide Laid, Width;
    assert xs[..|xs|] == xs && xs[..|rx|] == rx;
    WidthPrefix(xs, k + 1, |xs|);
    if k < |rx| {
      assert xs[k] == rx[k] && rx[k] in rx;
      WidthPrefix(xs, k + 1, |rx|);
    } else {
      assert xs[k] == tx[k - |rx|] && tx[k - |rx|] in tx;
      WidthPrefix(xs, |rx|, k);
    }
  }

  /** Where the entries of a planned domain may lie. */
  ghost predicate InPlace(w: DomainWork, bits: nat, k: nat)
    requires k < |w.pdos|
  {
    var e := w.pdos[k];
    && e.bitOffset + e.bitLength <= bits
    && (e.direction == Rx ==> e.bitOffset + e.bitLength <= w.outputBytes * 8)
    && (e.direction == Tx ==> w.outputBytes * 8 <= e.bitOffset)
  }

  /** In every planned domain the entries tile the image from bit zero, outputs
      first; they overlap nowhere; the status bits that follow fit behind them; and
      outputs and inputs together are the whole image. */
  lemma DomainImageIsTiled(c: Capacities, d: DomainManifest, ss: seq<Slave>, w: DomainWork)
    requires Planned(c, d, ss, w)
    ensures var bits := Width(AllItems(ss));
            && Tiles(w.pdos, bits)
            && (forall k :: 0 <= k < |w.pdos| ==> InPlace(w, bits, k))
            && (forall j, k :: 0 <= j < k < |w.pdos| ==>
                  && w.pdos[j].bitOffset + w.pdos[j].bitLength <= w.pdos[k].bitOffset
                  && !(w.pdos[j].direction == Tx && w.pdos[k].direction == Rx))
            && bits + |w.status| <= (w.outputBytes + w.inputBytes) * 8 < bits + |w.status| + 8
  {
    var rx, tx := DomainItems(ss, Rx), DomainItems(ss, Tx);
    ItemsDirected(ss, Rx);
    ItemsDirected(ss, Tx);
    LaidTiles(rx + tx);
    hide Laid, Width, DomainItems, Tiles, SortedStatus, Taking, Positions;
    forall k | 0 <= k < |w.pdos|
      ensures InPlace(w, Width(rx + tx), k) && (w.pdos[k].direction == Rx <==> k < |rx|)
    {
      LaidOnItsSide(rx, tx, k);
    }
    forall j, k | 0 <= j < k < |w.pdos|
      ensures w.pdos[j].bitOffset + w.pdos[j].bitLength <= w.pdos[k].bitOffset
    {
      LaidApart(rx + tx, j, k);
    }
  }

  /** Status bits of a domain are distinct, behind every entry and inside the image. */
  lemma StatusBitsApart(c: Capacities, d: DomainManifest, ss: seq<Slave>, w: DomainWork, table: StatusTable)
    requires Planned(c, d, ss, w) && StatusPlaced(table, w, Width(AllItems(ss)))
    ensures forall i, k :: 0 <= i < |w.status| && 0 <= k < |w.pdos| ==>
              w.pdos[k].bitOffset + w.pdos[k].bitLength <= table[w.status[i].position].domainBitOffset
    ensures forall i, j :: 0 <= i < j < |w.status| ==>
              table[w.status[i].position].domainBitOffset != table[w.status[j].position].domainBitOffset
    ensures forall i :: 0 <= i < |w.status| ==>
              table[w.status[i].position].domainBitOffset < (w.outputBytes + w.inputBytes) * 8
  {
    DomainImageIsTiled(c, d, ss, w);
    hide Planned, Tiles, Width, AllItems;
    forall i, k | 0 <= i < |w.status| && 0 <= k < |w.pdos|
      ensures w.pdos[k].bitOffset + w.pdos[k].bitLength <= table[w.status[i].position].domainBitOffset
    {
      assert InPlace(w, Width(AllItems(ss)), k);
    }
  }

  // ---------------------------------------------------------- across domains

  ghost predicate Apart(a: Datagram, b: Datagram) {
    a.End() <= b.processImageOffset || b.End() <= a.processImageOffset
  }

  /** Datagram `g` stays inside the image of domain `w`. */
  ghost predicate Within(g: Datagram, w: DomainWork) {
    && w.manifest.processImageOffset <= g.processImageOffset
    && g.End() <= w.manifest.processImageOffset + w.outputBytes + w.inputBytes
  }

  lemma {:induction false} GramsIndexed(ws: seq<DomainWork>, k: nat)
    requires k < |Grams(ws)|
    ensures Grams(ws)[k].index == k
    decreases |ws|
  {
    var n := |ws| - 1;
    if k < |Grams(ws[..n])| { GramsIndexed(ws[..n], k); }
  }

  lemma {:induction false} GramsWithin(ws: seq<DomainWork>, k: nat) returns (i: nat)
    requires k < |Grams(ws)|
    ensures i < |ws| && Within(Grams(ws)[k], ws[i])
    ensures Grams(ws)[k].expectedWkc == if Grams(ws)[k].input then ws[i].inputWkc else ws[i].outputWkc
    ensures if Grams(ws)[k].input then ws[i].inputBytes != 0 else ws[i].outputBytes != 0
    decreases |ws|
  {
    var n := |ws| - 1;
    if k < |Grams(ws[..n])| { i := GramsWithin(ws[..n], k); } else { i := n; }
  }

  ghost predicate WorksApart(ws: seq<DomainWork>) {
    forall i, j :: 0 <= i < j < |ws| ==>
      var a, b := ws[i], ws[j];
      || a.manifest.processImageOffset + a.outputBytes + a.inputBytes <= b.manifest.processImageOffset
      || b.manifest.processImageOffset + b.outputBytes + b.inputBytes <= a.manifest.processImageOffset
  }

  lemma {:induction false} GramsApart(ws: seq<DomainWork>, i: nat, j: nat)
    requires WorksApart(ws) && i < j < |Grams(ws)|
    ensures Apart(Grams(ws)[i], Grams(ws)[j])
    decreases |ws|
  {
    var n := |ws| - 1;
    var m := |Grams(ws[..n])|;
    if j < m {
      GramsApart(ws[..n], i, j);
    } else if i < m {
      var k := GramsWithin(ws[..n], i);
      assert ws[..n][k] == ws[k];
      assert Within(Grams(ws)[j], ws[n]);
    }
  }

  lemma WorksAreApart(m: Manifest, ss: seq<Slave>, p: Plan)
    requires Acceptable(m) && PlanOf(m, ss, p)
    ensures WorksApart(p.works)
    ensures forall k :: 0 <= k < |p.works| ==>
              p.works[k].manifest.processImageOffset + p.works[k].outputBytes + p.works[k].inputBytes
              <= m.capacities.maxProcessImageBytes
  {
    hide Grams, SlavesOk;
    forall k | 0 <= k < |p.works|
      ensures p.works[k].manifest == m.domains[k]
      ensures p.works[k].outputBytes + p.works[k].inputBytes <= m.domains[k].processImageCapacityBytes
      ensures m.domains[k].ImageEnd() <= m.capacities.maxProcessImageBytes
    {
      assert WorkPlanned(m, ss, p.status, p.works, k);
      assert DomainOk(m.capacities, m.domains[k]);
    }
    forall i, j | 0 <= i < j < |p.works|
      ensures m.domains[i].ImageEnd() <= m.domains[j].processImageOffset
              || m.domains[j].ImageEnd() <= m.domains[i].processImageOffset
    {
      assert DomainsApart(m.domains[i], m.domains[j]);
    }
  }

  /** Across all domains of an accepted manifest the datagrams are numbered without
      repetition from zero, never reach 32, touch pairwise disjoint parts of the
      process image, stay below its declared size, and each expects an answer. */
  lemma DatagramsAreSound(m: Manifest, ss: seq<Slave>, p: Plan)
    requires Acceptable(m) && PlanOf(m, ss, p)
    ensures |p.datagrams| <= 32
    ensures forall k :: 0 <= k < |p.datagrams| ==> p.datagrams[k].index == k
    ensures forall i, j :: 0 <= i < j < |p.datagrams| ==> Apart(p.datagrams[i], p.datagrams[j])
    ensures forall k :: 0 <= k < |p.datagrams| ==>
              p.datagrams[k].End() <= m.capacities.maxProcessImageBytes && p.datagrams[k].expectedWkc > 0
  {
    GramsBound(p.works);
    WorksAreApart(m, ss, p);
    hide Grams, WorkPlanned, DomainsOk, SlavesOk, Apart;
    forall k | 0 <= k < |p.datagrams| ensures p.datagrams[k].index == k { GramsIndexed(p.works, k); }
    forall i, j | 0 <= i < j < |p.datagrams| ensures Apart(p.datagrams[i], p.datagrams[j]) {
      GramsApart(p.works, i, j);
    }
    forall k | 0 <= k < |p.datagrams|
      ensures p.datagrams[k].End() <= m.capacities.maxProcessImageBytes && p.datagrams[k].expectedWkc > 0
    {
      var i := GramsWithin(p.works, k);
      WorkAnswered(m, ss, p.status, p.works, i);
    }
  }

  /** A domain's own datagrams cover its image. */
  lemma DomainGramsCover(w: DomainWork, next: nat, b: nat) returns (k: nat)
    requires w.manifest.processImageOffset <= b < w.manifest.processImageOffset + w.outputBytes + w.inputBytes
    ensures k < |DomainGrams(w, next)|
    ensures DomainGrams(w, next)[k].processImageOffset <= b < DomainGrams(w, next)[k].End()
  {
    k := if b < w.manifest.processImageOffset + w.outputBytes then 0 else |DomainGrams(w, next)| - 1;
  }

  lemma {:induction false} GramsCover(ws: seq<DomainWork>, i: nat, b: nat) returns (k: nat)
    requires i < |ws|
    requires ws[i].manifest.processImageOffset <= b
             < ws[i].manifest.processImageOffset + ws[i].outputBytes + ws[i].inputBytes
    ensures k < |Grams(ws)| && Grams(ws)[k].processImageOffset <= b < Grams(ws)[k].End()
    decreases |ws|
  {
    hide DomainGrams, Gram;
    var n := |ws| - 1;
    var before := Grams(ws[..n]);
    assert Grams(ws) == before + DomainGrams(ws[n], |before|);
    hide Grams;
    if i < n {
      k := GramsCover(ws[..n], i, b);
    } else {
      var own := DomainGramsCover(ws[n], |before|, b);
      k := |before| + own;
    }
  }

  /** The datagrams leave out no byte of any domain's image, so with the previous
      theorem they partition it. */
  lemma EveryImageByteIsMoved(m: Manifest, ss: seq<Slave>, p: Plan, i: nat, b: nat) returns (k: nat)
    requires PlanOf(m, ss, p) && i < |p.works|
    requires p.works[i].manifest.processImageOffset <= b
             < p.works[i].manifest.processImageOffset + p.works[i].outputBytes + p.works[i].inputBytes
    ensures k < |p.datagrams| && p.datagrams[k].processImageOffset <= b < p.datagrams[k].End()
  {
    k := GramsCover(p.works, i, b);
  }
}
