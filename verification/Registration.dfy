/** Attribute, module, metric and log-descriptor registration: names are
    deduplicated, ids are handed out in order, and each new descriptor is put on
    the service stream exactly once. */
module Registration {
  import opened Wire
  import opened Layout
  import opened Records
  import opened Format
  import opened LogWriter
  import opened Service
  import opened ServiceStream
  import opened Doubles

  const INVALID_NAME := -2
  const TYPE_MISMATCH := -3
  const ATTR_ALLOC_FAILED := -4
  const MTK_ALLOC_FAILED := -3
  const MTK_CONFLICT := -4
  const STR_KIND: byte := 0     // stands for e_p8_attr_str
  const NO_MODULE := -1         // stands for P8_MODULE_INVALID_ID

  /** A C string: null, or bytes without a terminator among them. */
  type Text = Option<seq<byte>>

  predicate Usable(name: Text) { name.Some? && name.value != [] }

  function Bytes(t: Text): (r: seq<byte>)
    ensures t == Some(r) || (t.None? && r == [])
  {
    if t.None? then [] else t.value
  }

  // ------------------------------------------------- what has been offered

  /** The descriptors of one kind, in order. */
  function OfKind(ds: seq<Desc>, kind: byte): seq<Desc> {
    if ds == [] then []
    else OfKind(ds[..|ds| - 1], kind) + if KindByte(ds[|ds| - 1]) == kind then [ds[|ds| - 1]] else []
  }

  /** The descriptors that found room. */
  function Pick(ds: seq<Desc>, kept: seq<bool>): seq<Desc>
    requires |ds| == |kept|
  {
    if ds == [] then []
    else Pick(ds[..|ds| - 1], kept[..|kept| - 1]) + if kept[|kept| - 1] then [ds[|ds| - 1]] else []
  }

  lemma OfKindSnoc(ds: seq<Desc>, d: Desc, kind: byte)
    ensures OfKind(ds + [d], kind) == OfKind(ds, kind) + if KindByte(d) == kind then [d] else []
  {
    hide KindByte;
    assert (ds + [d])[..|ds|] == ds;
  }

  lemma PickSnoc(ds: seq<Desc>, kept: seq<bool>, d: Desc, k: bool)
    requires |ds| == |kept|
    ensures Pick(ds + [d], kept + [k]) == Pick(ds, kept) + if k then [d] else []
  {
    assert (ds + [d])[..|ds|] == ds && (kept + [k])[..|kept|] == kept;
  }

  function IdOf(d: Desc): nat {
    match d
    case AttrDesc(id, _, _) => id
    case ModDesc(id, _, _) => id
    case MtkDesc(id, _, _, _, _, _, _, _, _) => id
    case LogDesc(_, hash, _, _, _, _) => hash
  }

  ghost predicate Increasing(ds: seq<Desc>) {
    forall i, j :: 0 <= i < j < |ds| ==> IdOf(ds[i]) < IdOf(ds[j])
  }

  lemma IncreasingSnoc(ds: seq<Desc>, d: Desc)
    requires Increasing(ds) && forall i :: 0 <= i < |ds| ==> IdOf(ds[i]) < IdOf(d)
    ensures Increasing(ds + [d])
  {
    hide IdOf;
  }

  lemma IncreasingFront(ds: seq<Desc>, d: Desc)
    requires Increasing(ds + [d])
    ensures Increasing(ds) && forall e <- ds :: IdOf(e) < IdOf(d)
  {
    hide IdOf;
    assert forall i :: 0 <= i < |ds| ==> (ds + [d])[i] == ds[i];
    assert (ds + [d])[|ds|] == d;
  }

  lemma IncreasingMore(got: seq<Desc>, all: seq<Desc>, d: Desc)
    requires Increasing(got) && (forall e <- got :: e in all) && forall e <- all :: IdOf(e) < IdOf(d)
    ensures Increasing(got + [d]) && forall e <- got + [d] :: e in all + [d]
  {
    hide IdOf, Increasing;
    assert forall i :: 0 <= i < |got| ==> got[i] in got;
    IncreasingSnoc(got, d);
  }

  /** Dropping entries from a list with increasing ids leaves increasing ids. */
  lemma {:induction false} PickedInOrder(ds: seq<Desc>, kept: seq<bool>, kind: byte)
    requires |ds| == |kept| && Increasing(OfKind(ds, kind))
    ensures Increasing(OfKind(Pick(ds, kept), kind))
    ensures forall d <- OfKind(Pick(ds, kept), kind) :: d in OfKind(ds, kind)
    decreases |ds|
  {
    hide IdOf, KindByte, Increasing;
    if ds == [] {
      assert Pick(ds, kept) == [];
    } else {
      var n := |ds| - 1;
      var front, got := OfKind(ds[..n], kind), OfKind(Pick(ds[..n], kept[..n]), kind);
      assert front + [] == front && Pick(ds[..n], kept[..n]) + [] == Pick(ds[..n], kept[..n]);
      if KindByte(ds[n]) == kind {
        IncreasingFront(front, ds[n]);
      }
      PickedInOrder(ds[..n], kept[..n], kind);
      if kept[n] {
        OfKindSnoc(Pick(ds[..n], kept[..n]), ds[n], kind);
        if KindByte(ds[n]) == kind {
          IncreasingMore(got, front, ds[n]);
        } else {
          assert got + [] == got;
        }
      }
    }
  }

  // ------------------------------------------------------------- tables

  datatype AttrRec = AttrRec(name: seq<byte>, kind: byte)
  datatype ModRec = ModRec(name: seq<byte>, verb: byte)
  datatype MtkRec = MtkRec(name: seq<byte>, text: Text, unit: Text, flags: byte, min: seq<byte>, max: seq<byte>)

  /** s_p8_mtk_base. */
  datatype MtkBase = MtkBase(name: Text, text: Text, unit: Text, on: bool, min: seq<byte>, max: seq<byte>,
                             attrs: seq<AttrVal>)

  /** Name maps are exactly the index of the table. */
  ghost predicate Indexed(names: seq<seq<byte>>, ids: map<seq<byte>, nat>) {
    (forall n <- ids :: ids[n] < |names| && names[ids[n]] == n)
    && (forall i :: 0 <= i < |names| ==> names[i] in ids && ids[names[i]] == i)
  }

  lemma IndexedSnoc(names: seq<seq<byte>>, ids: map<seq<byte>, nat>, name: seq<byte>)
    requires Indexed(names, ids) && name !in ids
    ensures Indexed(names + [name], ids[name := |names|])
  {
  }

  predicate SameMetric(r: MtkRec, b: MtkBase) {
    r.flags == (if b.on then 1 else 0) && SameDouble(r.min, b.min) && SameDouble(r.max, b.max)
    && r.text == b.text && r.unit == b.unit
  }

  /** A metric in the table is the one described exactly when both have the same
      flag, texts and bounds; the attributes play no part. Even its own description
      is in conflict with it when a bound is not a number. */
  lemma SameMetricIff(r: MtkRec, b: MtkBase)
    requires |r.min| == |r.max| == |b.min| == |b.max| == 8
    ensures SameMetric(r, b) <==>
              (r.flags == 1 <==> b.on) && r.flags <= 1 && r.text == b.text && r.unit == b.unit
              && SameNumber(r.min, b.min) && SameNumber(r.max, b.max)
    ensures SameName(r, b) ==>
              (SameMetric(r, b) <==> Magnitude(b.min) <= INFINITY && Magnitude(b.max) <= INFINITY)
  {
    hide SameDouble, Magnitude, FromLE;
    SameDoubleIff(r.min, b.min);
    SameDoubleIff(r.max, b.max);
  }

  // ------------------------------------------------------------- registry

  lemma NothingOffered()
    ensures Indexed([], map[])
  {
  }

  class Registry {
    const stream: Stream
    var attrs: seq<AttrRec>
    var attrIds: map<seq<byte>, nat>
    var mods: seq<ModRec>
    var modIds: map<seq<byte>, nat>
    var mtks: seq<MtkRec>
    var mtkIds: map<seq<byte>, nat>
    var logs: map<nat, Desc>          // mo_log_descs
    ghost var offered: seq<Desc>      // every descriptor ever registered
    ghost var kept: seq<bool>         // which of them found room on the stream
    ghost var tags: seq<seq<Attr>>    // the attributes encoded for each metric, in row order

    /** The tables and their indexes agree. */
    ghost predicate Tables()
      reads this
    {
      Indexed(Column(attrs, AttrName), attrIds) && Indexed(Column(mods, ModName), modIds)
      && Indexed(Column(mtks, MtkName), mtkIds)
    }

    /** Exactly one descriptor was offered per table row, in row order. */
    ghost predicate Offers()
      reads this
    {
      Attributed(OfKind(offered, SVC_ATTR), attrs) && Moduled(OfKind(offered, SVC_MODULE), mods)
      && Metered(OfKind(offered, SVC_MTK), mtks) && Logged(OfKind(offered, SVC_LOG), logs)
    }

    ghost predicate Valid()
      reads this, stream, stream.core, set s <- stream.pending :: s.buf
    {
      stream.Valid() && Tables() && Offers() && |offered| == |kept| && stream.Kept() == Pick(offered, kept)
      && Sane(offered) && |attrs| <= MAX_ATTRS && Tagged(OfKind(offered, SVC_MTK), tags, KindFlags())
    }

    constructor (core: Core)
      requires core.Valid()
      ensures Valid() && fresh(stream) && stream.core == core && offered == []
      ensures attrs == [] && mods == [] && mtks == [] && logs == map[]
    {
      hide Stream.Valid, Stream.Kept, Core.Valid, Indexed;
      NothingOffered();
      stream := new Stream(core);
      attrs, attrIds, mods, modIds, mtks, mtkIds, logs := [], map[], [], map[], [], map[], map[];
      offered, kept, tags := [], [], [];
      new;
      assert Column([], AttrName) == [] && Column([], ModName) == [] && Column([], MtkName) == [];
    }

    /** Offers a descriptor to the stream and books the outcome. */
    method Offer(d: Desc)
      requires stream.Valid() && ValidDesc(d) && |offered| == |kept| && stream.Kept() == Pick(offered, kept)
      requires Sane(offered)
      modifies this`offered, this`kept, stream`pending, stream`dropped, stream`chain, stream`parts
      modifies stream.core, stream.core.Stock(), set s <- stream.pending :: s.buf
      ensures stream.Valid() && |offered| == |kept| && stream.Kept() == Pick(offered, kept) && Sane(offered)
      ensures offered == old(offered) + [d] && kept[..|old(kept)|] == old(kept)
      ensures kept[|old(kept)|] <==>
                Padded(d) <= BUFFER_SIZE && (old(stream.NeedsNew(Padded(d))) ==> old(stream.core.Avail()) > 0)
    {
      hide Pick, Stream.Valid, Stream.Kept, Padded, Stream.NeedsNew, Core.Avail, Core.Stock;
      ghost var ok := stream.Serialize(d);
      PickSnoc(offered, kept, d, ok);
      offered, kept := offered + [d], kept + [ok];
    }

    /** attr_register; alloc says whether both allocations succeed. */
    method AttrRegister(name: Text, kind: byte, alloc: bool) returns (id: int)
      requires Valid() && |attrs| < 0x8000_0000 && 0 !in Bytes(name)
      modifies this, stream, stream.core, stream.core.Stock(), set s <- stream.pending :: s.buf
      ensures Valid()
      ensures !Usable(name) <==> id == INVALID_NAME
      ensures Usable(name) && name.value in old(attrIds) ==>
                id == if old(attrs[attrIds[name.value]].kind) == kind then old(attrIds[name.value]) else TYPE_MISMATCH
      ensures var isNew := Usable(name) && name.value !in old(attrIds) && alloc;
        if isNew then
          id == |old(attrs)| && attrs == old(attrs) + [AttrRec(name.value, kind)]
          && attrIds == old(attrIds)[name.value := |old(attrs)|]
          && offered == old(offered) + [AttrDesc(|old(attrs)|, kind, name.value)]
        else attrs == old(attrs) && attrIds == old(attrIds) && offered == old(offered)
      ensures Usable(name) && name.value !in old(attrIds) && !alloc ==> id == ATTR_ALLOC_FAILED
      ensures mods == old(mods) && mtks == old(mtks) && logs == old(logs)
    {
      hide Stream.Valid, Stream.Kept, Core.Stock, Pick, OfKind, Indexed, Attributed, Moduled, Metered, Logged, Column;
      hide Sane, Tagged, Registered;
      if name.None? || name.value == [] {
        return INVALID_NAME;
      }
      IndexedAt(Column(attrs, AttrName), attrIds, name.value);
      if name.value in attrIds {
        var existing := attrIds[name.value];
        return if attrs[existing].kind != kind then TYPE_MISMATCH else existing;
      }
      if !alloc {
        return ATTR_ALLOC_FAILED;
      }
      id := |attrs|;
      ghost var d := AttrDesc(id, kind, name.value);
      NewAttr(OfKind(offered, SVC_ATTR), attrs, attrIds, name.value, kind);
      OfferedKinds(offered, d);
      TaggedMore(OfKind(offered, SVC_MTK), tags, KindFlags(), [kind == STR_KIND]);
      FlagsSnoc(attrs, AttrRec(name.value, kind));
      attrs, attrIds := attrs + [AttrRec(name.value, kind)], attrIds[name.value := id];
      Offer(AttrDesc(id, kind, name.value));
    }

    /** register_module; a known name only refreshes its verbosity. The handle is
        the module's row; its wire id is that row cut to 16 bits. */
    method RegisterModule(name: Text, verb: byte, wanted: bool, alloc: bool) returns (handle: int)
      requires Valid() && 0 !in Bytes(name)
      modifies this, stream, stream.core, stream.core.Stock(), set s <- stream.pending :: s.buf
      ensures Valid()
      ensures handle == NO_MODULE <==> !Usable(name) || !wanted || (name.value !in old(modIds) && !alloc)
      ensures handle != NO_MODULE && name.value in old(modIds) ==>
                handle == old(modIds[name.value]) && offered == old(offered)
                && mods == old(mods)[handle := ModRec(name.value, verb)]
      ensures handle != NO_MODULE && name.value !in old(modIds) ==>
                handle == |old(mods)| && mods == old(mods) + [ModRec(name.value, verb)]
                && offered == old(offered) + [ModDesc(|old(mods)| % 0x1_0000, verb, name.value)]
      ensures handle == NO_MODULE ==> mods == old(mods) && offered == old(offered)
      ensures attrs == old(attrs) && mtks == old(mtks) && logs == old(logs)
    {
      hide Stream.Valid, Stream.Kept, Core.Stock, Pick, OfKind, Indexed, Attributed, Moduled, Metered, Logged, Column;
      hide Sane, Tagged, Registered;
      handle := NO_MODULE;
      if name.None? || name.value == [] || !wanted {
        return;
      }
      IndexedAt(Column(mods, ModName), modIds, name.value);
      if name.value in modIds {
        handle := modIds[name.value];
        RefreshedMod(OfKind(offered, SVC_MODULE), mods, modIds, handle, verb);
        mods := mods[handle := mods[handle].(verb := verb)];
        return;
      }
      if !alloc {
        return;
      }
      handle := |mods|;
      ghost var d := ModDesc(handle % 0x1_0000, verb, name.value);
      NewMod(OfKind(offered, SVC_MODULE), mods, modIds, name.value, verb);
      OfferedKinds(offered, d);
      mods, modIds := mods + [ModRec(name.value, verb)], modIds[name.value := handle];
      Offer(ModDesc(handle % 0x1_0000, verb, name.value));
    }

    /** encode_attr_blob: at most 255 attributes, unknown ids skipped. */
    method EncodeAttrBlob(vs: seq<AttrVal>) returns (blob: seq<byte>, count: byte)
      ensures var done := Take(ResolveAll(vs, KindFlags()), 255); blob == AttrsBytes(done) && count == |done|
      ensures Shows(blob, count, vs, KindFlags())
    {
      hide AttrsBytes, Resolve, Shows;
      BlobShows(vs, KindFlags());
      var flags := KindFlags();
      ghost var done: seq<Attr> := [];
      blob, count := [], 0;
      NoAttrs();
      var i := 0;
      while i < |vs|
        invariant 0 <= i <= |vs| && done == ResolveAll(vs[..i], flags) && count == |done| < 255
        invariant blob == AttrsBytes(done)
      {
        assert vs[..i + 1][..i] == vs[..i];
        var one := Resolve(vs[i], flags);
        AttrsJoin(done, vs[i], flags);
        OneAtMost(vs[i], flags);
        done := done + one;
        if one != [] {
          blob := blob + AttrsBytes(one);
          count := count + 1;
          if count == 255 {
            ResolvedPrefix(vs, flags, i + 1);
            TakePrefix(done, ResolveAll(vs, flags), 255);
            return;
          }
        }
        i := i + 1;
      }
      assert vs[..i] == vs;
    }

    /** Which registered attributes hold strings. */
    function KindFlags(): (r: seq<bool>)
      ensures |r| == |attrs|
      reads this`attrs
    {
      Flags(attrs)
    }

    /** register_mtk. */
    method RegisterMtk(base: MtkBase, alloc: bool) returns (id: int)
      requires Valid() && |mtks| < 0x8000_0000 && |base.min| == 8 && |base.max| == 8
      requires forall v <- base.attrs :: |v.raw| == 8
      modifies this, stream, stream.core, stream.core.Stock(), set s <- stream.pending :: s.buf
      ensures Valid()
      ensures !Usable(base.name) <==> id == INVALID_NAME
      ensures Usable(base.name) && base.name.value in old(mtkIds) ==>
                id == if SameMetric(old(mtks[mtkIds[base.name.value]]), base) then old(mtkIds[base.name.value])
                      else MTK_CONFLICT
      ensures Usable(base.name) && base.name.value !in old(mtkIds) && !alloc ==> id == MTK_ALLOC_FAILED
      ensures var isNew := Usable(base.name) && base.name.value !in old(mtkIds) && alloc;
        if isNew then
          id == |old(mtks)| && |mtks| == id + 1 && mtks[..id] == old(mtks) && SameName(mtks[id], base)
          && |offered| == |old(offered)| + 1 && offered[..|old(offered)|] == old(offered)
          && offered[|old(offered)|] == MtkEntry(id, base, Take(ResolveAll(base.attrs, old(KindFlags())), 255))
          && tags == old(tags) + [Take(ResolveAll(base.attrs, old(KindFlags())), 255)]
          && Carried(tags[|tags| - 1], base.attrs, old(KindFlags()))
        else mtks == old(mtks) && offered == old(offered) && tags == old(tags)
      ensures attrs == old(attrs) && mods == old(mods) && logs == old(logs)
    {
      hide Stream.Valid, Stream.Kept, Core.Stock, Pick, OfKind, Indexed, Attributed, Moduled, Metered, Logged, Column;
      hide Sane, Tagged, Registered;
      hide SameDouble, ResolveAll, MtkEntry, KindFlags, SameName, Take, Carried;
      if base.name.None? || base.name.value == [] {
        return INVALID_NAME;
      }
      var name := base.name.value;
      IndexedAt(Column(mtks, MtkName), mtkIds, name);
      if name in mtkIds {
        var row := mtks[mtkIds[name]];
        if row.flags == (if base.on then 1 else 0) && SameDouble(row.min, base.min) && SameDouble(row.max, base.max)
           && row.text == base.text && row.unit == base.unit {
          return mtkIds[name];
        }
        return MTK_CONFLICT;
      }
      if !alloc {
        return MTK_ALLOC_FAILED;
      }
      AddMtk(name, base);
      return |mtks| - 1;
    }

    /** A metric with a name of its own: encodes, files and offers it. */
    method AddMtk(name: seq<byte>, base: MtkBase)
      requires Valid() && base.name == Some(name) && name != [] && name !in mtkIds
      requires |mtks| < 0x8000_0000 && |base.min| == 8 && |base.max| == 8 && forall v <- base.attrs :: |v.raw| == 8
      modifies this, stream, stream.core, stream.core.Stock(), set s <- stream.pending :: s.buf
      ensures Valid() && |mtks| == |old(mtks)| + 1 && mtks[..|old(mtks)|] == old(mtks)
      ensures SameName(mtks[|old(mtks)|], base)
      ensures offered
              == old(offered) + [MtkEntry(|old(mtks)|, base, Take(ResolveAll(base.attrs, old(KindFlags())), 255))]
      ensures tags == old(tags) + [Take(ResolveAll(base.attrs, old(KindFlags())), 255)]
      ensures Carried(tags[|tags| - 1], base.attrs, old(KindFlags()))
      ensures attrs == old(attrs) && mods == old(mods) && logs == old(logs)
    {
      hide Stream.Valid, Stream.Kept, Core.Stock, Pick, OfKind, Indexed, Attributed, Moduled, Metered, Logged, Column;
      hide Sane, Tagged, Registered;
      hide ResolveAll, AttrsBytes, Take, KindFlags, Carried;
      BlobShows(base.attrs, KindFlags());
      var blob, count := EncodeAttrBlob(base.attrs);
      var id := |mtks|;
      var row := MtkRec(name, base.text, base.unit, if base.on then 1 else 0, base.min, base.max);
      var d := MtkDesc(id, base.min, base.max, row.flags, name, Bytes(base.text), Bytes(base.unit), blob, count);
      ResolvedFit(base.attrs, KindFlags());
      TakeRegistered(ResolveAll(base.attrs, KindFlags()), KindFlags(), 255);
      FileMtk(row, d, Take(ResolveAll(base.attrs, KindFlags()), 255));
    }

    /** A new row of the metric table, offered to the stream. */
    method FileMtk(row: MtkRec, d: Desc, ghost done: seq<Attr>)
      requires Valid() && row.name !in mtkIds && |mtks| < 0x8000_0000 && Describes(d, row, |mtks|)
      requires d.attrs == AttrsBytes(done) && d.count == |done| && Registered(done, KindFlags())
      modifies this, stream, stream.core, stream.core.Stock(), set s <- stream.pending :: s.buf
      ensures Valid() && mtks == old(mtks) + [row] && offered == old(offered) + [d] && tags == old(tags) + [done]
      ensures attrs == old(attrs) && mods == old(mods) && logs == old(logs)
    {
      hide Stream.Valid, Stream.Kept, Core.Stock, Pick, OfKind, Indexed, Attributed, Moduled, Metered, Logged, Column;
      hide Sane, Tagged, Registered, AttrsBytes, KindFlags;
      NewMtk(OfKind(offered, SVC_MTK), mtks, mtkIds, row, d);
      NewTags(OfKind(offered, SVC_MTK), tags, KindFlags(), d, done);
      OfferedKinds(offered, d);
      tags := tags + [done];
      mtks, mtkIds := mtks + [row], mtkIds[row.name := |mtks|];
      Offer(d);
    }

    /** resolve_log_desc: one descriptor per hash. */
    method ResolveLogDesc(hash: nat, file: Text, line: nat, func: Text, format: Text, alloc: bool)
      returns (d: Option<Desc>)
      requires Valid() && hash < 0x1_0000_0000_0000_0000 && line < 0x1_0000_0000
      modifies this, stream, stream.core, stream.core.Stock(), set s <- stream.pending :: s.buf
      ensures Valid()
      ensures hash in old(logs) ==> d == Some(old(logs)[hash]) && logs == old(logs) && offered == old(offered)
      ensures hash !in old(logs) && !alloc ==> d == None && logs == old(logs) && offered == old(offered)
      ensures hash !in old(logs) && alloc ==>
                d == Some(LogDesc(line, hash, Bytes(file), Bytes(func), Bytes(format),
                                  if format.None? then [] else Take(Plain(AsString(format.value)), MAX_ARGS)))
                && logs == old(logs)[hash := d.value] && offered == old(offered) + [d.value]
      ensures attrs == old(attrs) && mods == old(mods) && mtks == old(mtks)
    {
      hide Stream.Valid, Stream.Kept, Core.Stock, Pick, OfKind, Indexed, Attributed, Moduled, Metered, Logged, Plain;
      hide Sane, Tagged, Flags, Column;
      if hash in logs {
        return Some(logs[hash]);
      }
      if !alloc {
        return None;
      }
      var args := ParseFormat(if format.None? then None else Some(AsString(format.value)), MAX_ARGS);
      var entry := LogDesc(line, hash, Bytes(file), Bytes(func), Bytes(format), args);
      NewLog(OfKind(offered, SVC_LOG), logs, entry);
      OfferedKinds(offered, entry);
      logs := logs[hash := entry];
      Offer(entry);
      d := Some(entry);
    }

    /** Whatever was dropped, the ids a reader finds on the stream are those of
        registered rows, each at most once and in id order; modules keep this up
        to 65536 of them, where their 16-bit id starts over. */
    lemma IdsInOrder()
      requires Valid()
      ensures Increasing(OfKind(stream.Kept(), SVC_ATTR)) && Increasing(OfKind(stream.Kept(), SVC_MTK))
      ensures |mods| <= 0x1_0000 ==> Increasing(OfKind(stream.Kept(), SVC_MODULE))
    {
      hide OfKind, Pick, Stream.Valid, Stream.Kept;
      PickedInOrder(offered, kept, SVC_ATTR);
      PickedInOrder(offered, kept, SVC_MTK);
      if |mods| <= 0x1_0000 {
        PickedInOrder(offered, kept, SVC_MODULE);
      }
    }

    /** Modules keep id order whatever is dropped if and only if there are at most
        65536 of them; with nothing dropped, too. Of one more, the first and the
        last share id 0. */
    lemma ModulesInOrderIff()
      requires Valid()
      ensures (forall ks: seq<bool> :: |ks| == |offered| ==> Increasing(OfKind(Pick(offered, ks), SVC_MODULE)))
              <==> |mods| <= 0x1_0000
      ensures (forall i :: 0 <= i < |kept| ==> kept[i]) ==>
                (Increasing(OfKind(stream.Kept(), SVC_MODULE)) <==> |mods| <= 0x1_0000)
      ensures |mods| > 0x1_0000 ==>
                var ds := OfKind(offered, SVC_MODULE);
                |ds| == |mods| && ds[0].ModDesc? && ds[0x1_0000].ModDesc?
                && ds[0].id == ds[0x1_0000].id == 0 && ds[0].name != ds[0x1_0000].name
    {
      hide OfKind, Pick, Stream.Valid, Stream.Kept, Indexed, Moduled, Attributed, Metered, Logged, Increasing, Tagged;
      var ds := OfKind(offered, SVC_MODULE);
      IdsWrap(ds, mods, modIds);
      var all := seq(|offered|, i => true);
      PickAll(offered, all);
      assert Increasing(OfKind(Pick(offered, all), SVC_MODULE)) <==> Increasing(ds);
      if |mods| <= 0x1_0000 {
        forall ks: seq<bool> | |ks| == |offered| ensures Increasing(OfKind(Pick(offered, ks), SVC_MODULE)) {
          PickedInOrder(offered, ks, SVC_MODULE);
        }
      }
      if forall i :: 0 <= i < |kept| ==> kept[i] {
        PickAll(offered, kept);
      }
    }

    /** The walk over the stream's buffers decodes to exactly the descriptors that
        found room, in order, with their over-long strings cut. The intact ones,
        and no others, come back as they were registered. */
    lemma Recovered()
      requires Valid()
      ensures DecodeAll(WalkAll(stream.written + stream.chain)) == Seen(stream.Kept())
      ensures Same(DecodeAll(WalkAll(stream.written + stream.chain)), stream.Kept())
    {
      stream.ReadBack();
      hide Stream.Valid, Stream.Kept, WalkAll, Listed, OfKind, DecodeAll, Seen, Sane, Same;
      PickSane(offered, kept);
      ListedDecodes(stream.Kept());
      SeenSame(stream.Kept());
    }

    /** With nothing dropped, that is everything that was ever registered. */
    lemma NothingDropped()
      requires Valid() && forall i :: 0 <= i < |kept| ==> kept[i]
      ensures stream.Kept() == offered
      ensures DecodeAll(WalkAll(stream.written + stream.chain)) == Seen(offered)
      ensures Same(DecodeAll(WalkAll(stream.written + stream.chain)), offered)
    {
      Recovered();
      hide Stream.Valid, Stream.Kept, WalkAll, OfKind, DecodeAll, Seen, Sane, Same;
      PickAll(offered, kept);
    }

    /** A reader that knows the registered attributes decodes the blob it found in
        a metric's entry, padding included, to the attributes encoded for it. */
    lemma MetricTags(i: nat)
      requires Valid() && i < |mtks|
      ensures |OfKind(offered, SVC_MTK)| == |tags| == |mtks| && OfKind(offered, SVC_MTK)[i].MtkDesc?
      ensures var d := Decode(Found(5, Entry(OfKind(offered, SVC_MTK)[i])));
        d.Some? && d.value.MtkDesc?
        && DecodeAttrs(d.value.attrs, d.value.count, KindFlags()) == Some(ClipAttrs(tags[i]))
    {
      hide Stream.Valid, Stream.Kept, Pick, OfKind, Registered, DecodeAttrs, ClipAttrs, AttrsBytes, Decode, Entry;
      var d := OfKind(offered, SVC_MTK)[i];
      OfKindSane(offered, SVC_MTK);
      DecodeMtk(d);
      AttrsRoundTrip(tags[i], Zeros(Tail(d)), KindFlags());
    }
  }

  /** What the reader's decoder makes of a list of entries. */
  function DecodeAll(fs: seq<Found>): seq<Option<Desc>> {
    if fs == [] then [] else [Decode(fs[0])] + DecodeAll(fs[1..])
  }

  function Seen(ds: seq<Desc>): (r: seq<Option<Desc>>)
    ensures |r| == |ds| && forall i :: 0 <= i < |ds| ==> r[i] == Some(Visible(ds[i]))
  {
    if ds == [] then [] else [Some(Visible(ds[0]))] + Seen(ds[1..])
  }

  /** One for each of ds: itself if and only if it is intact, and of a log
      descriptor at least the line, the hash and the first 32 arguments. */
  ghost predicate Same(got: seq<Option<Desc>>, ds: seq<Desc>) {
    |got| == |ds|
    && forall i :: 0 <= i < |ds| ==>
         got[i].Some? && (got[i].value == ds[i] <==> Intact(ds[i]))
         && (ds[i].LogDesc? ==>
               got[i].value.LogDesc? && got[i].value.line == ds[i].line && got[i].value.hash == ds[i].hash
               && got[i].value.args == if |ds[i].args| <= 32 then ds[i].args else ds[i].args[..32])
  }

  lemma SeenSame(ds: seq<Desc>)
    requires Sane(ds)
    ensures Same(Seen(ds), ds)
  {
    hide Seen, Visible, ValidDesc, Intact;
    forall i | 0 <= i < |ds|
      ensures Visible(ds[i]) == ds[i] <==> Intact(ds[i])
      ensures ds[i].LogDesc? ==>
                Visible(ds[i])
                == LogDesc(ds[i].line, ds[i].hash, ds[i].file[..|ds[i].file| % 1024], ds[i].func[..|ds[i].func| % 1024],
                           ds[i].fmt[..|ds[i].fmt| % 1024], if |ds[i].args| <= 32 then ds[i].args else ds[i].args[..32])
    {
      VisibleIff(ds[i]);
      if ds[i].LogDesc? {
        DecodeLog(ds[i]);
        LogEntryRead(ds[i]);
      }
    }
  }

  ghost predicate Sane(ds: seq<Desc>) { forall i :: 0 <= i < |ds| ==> ValidDesc(ds[i]) }

  lemma {:induction false} ListedDecodes(ds: seq<Desc>)
    requires Sane(ds)
    ensures DecodeAll(Listed(ds)) == Seen(ds)
    decreases |ds|
  {
    hide Decode, Entry, Visible, ValidDesc, KindByte;
    if ds != [] {
      EntryRoundTrip(ds[0]);
      ListedDecodes(ds[1..]);
    }
  }

  lemma {:induction false} OfKindSane(ds: seq<Desc>, kind: byte)
    requires Sane(ds)
    ensures Sane(OfKind(ds, kind))
    decreases |ds|
  {
    hide ValidDesc, KindByte;
    if ds != [] {
      OfKindSane(ds[..|ds| - 1], kind);
    }
  }

  lemma {:induction false} PickSane(ds: seq<Desc>, kept: seq<bool>)
    requires |ds| == |kept| && Sane(ds)
    ensures Sane(Pick(ds, kept))
    decreases |ds|
  {
    hide ValidDesc;
    if ds != [] {
      PickSane(ds[..|ds| - 1], kept[..|kept| - 1]);
    }
  }

  function Flags(rs: seq<AttrRec>): (r: seq<bool>)
    ensures |r| == |rs| && forall i :: 0 <= i < |rs| ==> r[i] == (rs[i].kind == STR_KIND)
  {
    seq(|rs|, i requires 0 <= i < |rs| => rs[i].kind == STR_KIND)
  }

  lemma FlagsSnoc(rs: seq<AttrRec>, r: AttrRec)
    ensures Flags(rs + [r]) == Flags(rs) + [r.kind == STR_KIND]
  {
  }

  /** Each metric's blob encodes registered attributes. */
  ghost predicate Tagged(ds: seq<Desc>, tags: seq<seq<Attr>>, flags: seq<bool>) {
    |ds| == |tags|
    && forall i :: 0 <= i < |tags| ==>
         ds[i].MtkDesc? && ds[i].attrs == AttrsBytes(tags[i]) && ds[i].count == |tags[i]| && Registered(tags[i], flags)
  }

  /** Attributes registered later do not change what was encoded. */
  lemma TaggedMore(ds: seq<Desc>, tags: seq<seq<Attr>>, flags: seq<bool>, more: seq<bool>)
    requires Tagged(ds, tags, flags)
    ensures Tagged(ds, tags, flags + more)
  {
    hide AttrsBytes;
    forall i | 0 <= i < |tags| ensures Registered(tags[i], flags + more) {
    }
  }

  lemma NewTags(ds: seq<Desc>, tags: seq<seq<Attr>>, flags: seq<bool>, d: Desc, done: seq<Attr>)
    requires Tagged(ds, tags, flags) && Registered(done, flags)
    requires d.MtkDesc? && d.attrs == AttrsBytes(done) && d.count == |done|
    ensures Tagged(ds + [d], tags + [done], flags)
  {
    hide AttrsBytes, Registered;
  }

  lemma TakeRegistered(all: seq<Attr>, flags: seq<bool>, n: nat)
    requires Registered(all, flags)
    ensures Registered(Take(all, n), flags)
  {
  }

  function AsString(s: seq<byte>): (r: string)
    ensures |r| == |s| && forall i :: 0 <= i < |s| ==> r[i] as int == s[i]
  {
    seq(|s|, i requires 0 <= i < |s| => s[i] as char)
  }

  function MtkEntry(id: nat, base: MtkBase, attrs: seq<Attr>): Desc
    requires Usable(base.name) && |attrs| < 256
  {
    MtkDesc(id, base.min, base.max, if base.on then 1 else 0, base.name.value, Bytes(base.text), Bytes(base.unit),
            AttrsBytes(attrs), |attrs|)
  }

  predicate SameName(r: MtkRec, b: MtkBase) {
    b.name == Some(r.name) && r.text == b.text && r.unit == b.unit && r.flags == (if b.on then 1 else 0)
    && r.min == b.min && r.max == b.max
  }

  lemma {:induction false} PickAll(ds: seq<Desc>, kept: seq<bool>)
    requires |ds| == |kept| && forall i :: 0 <= i < |kept| ==> kept[i]
    ensures Pick(ds, kept) == ds
    decreases |ds|
  {
    if ds != [] {
      PickAll(ds[..|ds| - 1], kept[..|kept| - 1]);
    }
  }

  lemma TakePrefix<T>(a: seq<T>, b: seq<T>, n: nat)
    requires a <= b && |a| == n
    ensures Take(b, n) == a
  {
  }

  lemma OneAtMost(v: AttrVal, isStr: seq<bool>)
    ensures |Resolve(v, isStr)| <= 1
    ensures Resolve(v, isStr) == [] ==> AttrsBytes(Resolve(v, isStr)) == []
  {
  }

  /** A reader of the blob sees the first 255 entries of vs whose ids are
      registered, or all if there are no more. */
  ghost predicate Shows(blob: seq<byte>, count: nat, vs: seq<AttrVal>, isStr: seq<bool>) {
    count == (if Known(vs, |isStr|) <= 255 then Known(vs, |isStr|) else 255)
    && (|isStr| <= MAX_ATTRS && (forall v <- vs :: |v.raw| == 8) ==>
          var got := DecodeAttrs(blob, count, isStr);
          got.Some? && |got.value| == count && Lists(got.value, vs, isStr))
  }

  /** The same of the attributes a metric was encoded with, texts cut. */
  ghost predicate Carried(done: seq<Attr>, vs: seq<AttrVal>, isStr: seq<bool>) {
    |done| == (if Known(vs, |isStr|) <= 255 then Known(vs, |isStr|) else 255)
    && Lists(ClipAttrs(done), vs, isStr)
  }

  lemma BlobShows(vs: seq<AttrVal>, isStr: seq<bool>)
    ensures var done := Take(ResolveAll(vs, isStr), 255); Shows(AttrsBytes(done), |done|, vs, isStr)
    ensures |isStr| <= MAX_ATTRS && (forall v <- vs :: |v.raw| == 8) ==>
              Carried(Take(ResolveAll(vs, isStr), 255), vs, isStr)
  {
    hide AttrsBytes, ResolveAll, Known, DecodeAttrs, Lists, ClipAttrs, Registered, AttrsChunks;
    ResolvedCount(vs, isStr);
    if |isStr| <= MAX_ATTRS && forall v <- vs :: |v.raw| == 8 {
      var all := ResolveAll(vs, isStr);
      var k := |Take(all, 255)|;
      assert Take(all, 255) == all[..k];
      ResolvedFit(vs, isStr);
      assert Registered(all[..k], isStr) by { TakeRegistered(all, isStr, 255); }
      AttrsRoundTrip(all[..k], [], isStr);
      assert AttrsBytes(all[..k]) + [] == AttrsBytes(all[..k]);
      AttrsSeen(vs, isStr, k, []);
      FirstAttrs(all, k, [], isStr);
    }
  }

  lemma {:induction false} ResolvedPrefix(vs: seq<AttrVal>, isStr: seq<bool>, i: nat)
    requires i <= |vs|
    ensures ResolveAll(vs[..i], isStr) <= ResolveAll(vs, isStr)
    decreases |vs|
  {
    hide Resolve;
    if i == |vs| {
      assert vs[..i] == vs;
    } else {
      ResolvedPrefix(vs[..|vs| - 1], isStr, i);
      assert vs[..|vs| - 1][..i] == vs[..i];
    }
  }

  lemma IndexedAt(names: seq<seq<byte>>, ids: map<seq<byte>, nat>, name: seq<byte>)
    requires Indexed(names, ids)
    ensures name in ids ==> ids[name] < |names| && names[ids[name]] == name
  {
  }

  lemma OfferedKinds(ds: seq<Desc>, d: Desc)
    ensures forall k: byte :: OfKind(ds + [d], k) == if KindByte(d) == k then OfKind(ds, k) + [d] else OfKind(ds, k)
  {
    hide OfKind, KindByte;
    forall k: byte ensures OfKind(ds + [d], k) == if KindByte(d) == k then OfKind(ds, k) + [d] else OfKind(ds, k) {
      OfKindSnoc(ds, d, k);
      assert OfKind(ds, k) + [] == OfKind(ds, k);
    }
  }

  lemma NewAttr(ds: seq<Desc>, rs: seq<AttrRec>, ids: map<seq<byte>, nat>, name: seq<byte>, kind: byte)
    requires Attributed(ds, rs) && Indexed(Column(rs, AttrName), ids) && name !in ids
    ensures Attributed(ds + [AttrDesc(|rs|, kind, name)], rs + [AttrRec(name, kind)])
    ensures Indexed(Column(rs + [AttrRec(name, kind)], AttrName), ids[name := |rs|])
  {
    hide Indexed;
    assert Column(rs + [AttrRec(name, kind)], AttrName) == Column(rs, AttrName) + [name];
    IndexedSnoc(Column(rs, AttrName), ids, name);
  }

  lemma NewMod(ds: seq<Desc>, rs: seq<ModRec>, ids: map<seq<byte>, nat>, name: seq<byte>, verb: byte)
    requires Moduled(ds, rs) && Indexed(Column(rs, ModName), ids) && name !in ids
    ensures Moduled(ds + [ModDesc(|rs| % 0x1_0000, verb, name)], rs + [ModRec(name, verb)])
    ensures Indexed(Column(rs + [ModRec(name, verb)], ModName), ids[name := |rs|])
  {
    hide Indexed;
    assert Column(rs + [ModRec(name, verb)], ModName) == Column(rs, ModName) + [name];
    IndexedSnoc(Column(rs, ModName), ids, name);
  }

  lemma RefreshedMod(ds: seq<Desc>, rs: seq<ModRec>, ids: map<seq<byte>, nat>, i: nat, verb: byte)
    requires Moduled(ds, rs) && Indexed(Column(rs, ModName), ids) && i < |rs|
    ensures Moduled(ds, rs[i := rs[i].(verb := verb)])
    ensures Indexed(Column(rs[i := rs[i].(verb := verb)], ModName), ids)
  {
    hide Indexed;
    assert Column(rs[i := rs[i].(verb := verb)], ModName) == Column(rs, ModName);
  }

  /** d is the descriptor of the metric in row id. */
  predicate Describes(d: Desc, r: MtkRec, id: nat) {
    d.MtkDesc? && d.id == id && d.name == r.name && d.text == Bytes(r.text) && d.unit == Bytes(r.unit)
    && d.flags == r.flags && d.min == r.min && d.max == r.max && |r.min| == 8 && |r.max| == 8
  }

  lemma NewMtk(ds: seq<Desc>, rs: seq<MtkRec>, ids: map<seq<byte>, nat>, r: MtkRec, d: Desc)
    requires Metered(ds, rs) && Indexed(Column(rs, MtkName), ids) && r.name !in ids && Describes(d, r, |rs|)
    ensures Metered(ds + [d], rs + [r]) && Indexed(Column(rs + [r], MtkName), ids[r.name := |rs|])
  {
    hide Indexed;
    assert Column(rs + [r], MtkName) == Column(rs, MtkName) + [r.name];
    IndexedSnoc(Column(rs, MtkName), ids, r.name);
  }

  lemma NewLog(ds: seq<Desc>, logs: map<nat, Desc>, d: Desc)
    requires Logged(ds, logs) && d.LogDesc? && d.hash !in logs
    ensures Logged(ds + [d], logs[d.hash := d])
  {
    var ms := logs[d.hash := d];
    forall h | h in ms ensures ms[h] in ds + [d] {
      if h == d.hash {
        assert (ds + [d])[|ds|] == d;
      }
    }
    forall i, j | 0 <= i < j < |ds + [d]| ensures (ds + [d])[i] != (ds + [d])[j] {
      assert ds[i] in ds;
    }
  }

  /** The names of a table's rows, in row order. */
  function Column<R>(rs: seq<R>, name: R -> seq<byte>): (r: seq<seq<byte>>)
    ensures |r| == |rs| && forall i :: 0 <= i < |rs| ==> r[i] == name(rs[i])
  {
    seq(|rs|, i requires 0 <= i < |rs| => name(rs[i]))
  }

  function AttrName(r: AttrRec): seq<byte> { r.name }

  function ModName(r: ModRec): seq<byte> { r.name }

  function MtkName(r: MtkRec): seq<byte> { r.name }

  ghost predicate Attributed(ds: seq<Desc>, rs: seq<AttrRec>) {
    |ds| == |rs| && forall i :: 0 <= i < |rs| ==> ds[i] == AttrDesc(i, rs[i].kind, rs[i].name)
  }

  /** A module's verbosity may have been refreshed since it was offered. */
  ghost predicate Moduled(ds: seq<Desc>, rs: seq<ModRec>) {
    |ds| == |rs| && forall i :: 0 <= i < |rs| ==> ds[i].ModDesc? && ds[i].id == i % 0x1_0000 && ds[i].name == rs[i].name
  }

  /** Ids are rows cut to 16 bits, so they rise up to 65536 rows and then repeat. */
  lemma IdsWrap(ds: seq<Desc>, rs: seq<ModRec>, ids: map<seq<byte>, nat>)
    requires Moduled(ds, rs) && Indexed(Column(rs, ModName), ids)
    ensures Increasing(ds) <==> |rs| <= 0x1_0000
    ensures |rs| > 0x1_0000 ==>
              |ds| == |rs| && ds[0].ModDesc? && ds[0x1_0000].ModDesc?
              && ds[0].id == ds[0x1_0000].id == 0 && ds[0].name != ds[0x1_0000].name
  {
    if |rs| > 0x1_0000 {
      assert IdOf(ds[0]) == IdOf(ds[0x1_0000]);
      assert Column(rs, ModName)[0] != Column(rs, ModName)[0x1_0000];
    }
  }

  ghost predicate Metered(ds: seq<Desc>, rs: seq<MtkRec>) {
    |ds| == |rs|
    && forall i :: 0 <= i < |rs| ==>
         ds[i].MtkDesc? && ds[i].id == i && ds[i].name == rs[i].name && ds[i].text == Bytes(rs[i].text)
         && ds[i].unit == Bytes(rs[i].unit) && ds[i].flags == rs[i].flags
         && ds[i].min == rs[i].min && ds[i].max == rs[i].max
  }

  /** Every log descriptor was offered once, under its own hash. */
  ghost predicate Logged(ds: seq<Desc>, logs: map<nat, Desc>) {
    (forall d <- ds :: d.LogDesc? && d.hash in logs && logs[d.hash] == d)
    && (forall h <- logs :: logs[h] in ds)
    && (forall i, j :: 0 <= i < j < |ds| ==> ds[i] != ds[j])
  }
}
