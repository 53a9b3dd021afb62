// Vendor tag descriptors: built from the HAL's vendor tag operations, sent through a parcel and read back
// (libmocha/camera/VendorTagDescriptor.cpp).

module VendorTags {
  import opened StringOrder

  const TAG_LIMIT: nat := 0x1_0000_0000
  const VENDOR_BOUNDARY: nat := 0x8000_0000   // CAMERA_METADATA_VENDOR_TAG_BOUNDARY
  const NUM_TYPES: int := 6
  const INT32_MAX: nat := 0x7fff_ffff

  type Tag = x: int | 0 <= x < TAG_LIMIT

  datatype Status = BadValue | NotEnoughData | OutOfRange

  datatype Result = Ok(desc: Descriptor) | Err(status: Status)

  datatype Lookup = Found(tag: Tag) | NotFound

  datatype Text = Null | Text(s: string)

  // What the vendor operations report about one tag.
  datatype Def = Def(name: Text, section: Text, ttype: int)

  datatype Info = Info(name: string, ttype: int, section: nat)

  // The tag maps share their keys and are kept as one; the reverse map is keyed by section and name.
  datatype Descriptor = Descriptor(
    count: nat, tags: map<Tag, Info>, sections: seq<string>, reverse: map<(string, string), Tag>)

  // Tags of a keyed vector in key order.
  function Ascending(keys: set<Tag>, bound: nat): (s: seq<Tag>)
    requires bound <= TAG_LIMIT
    ensures forall t | t in s :: t in keys && t < bound
    ensures |s| <= bound
  {
    if bound == 0 then [] else Ascending(keys, bound - 1) + if bound - 1 in keys then [bound - 1] else []
  }

  lemma {:induction false} AscendingHasAll(keys: set<Tag>, bound: nat, t: Tag)
    requires bound <= TAG_LIMIT && t in keys && t < bound
    ensures t in Ascending(keys, bound)
  {
    if t < bound - 1 {
      AscendingHasAll(keys, bound - 1, t);
    }
  }

  predicate Distinct(s: seq<Tag>) {
    forall i, j | 0 <= i < j < |s| :: s[i] != s[j]
  }

  lemma {:induction false} AscendingDistinct(keys: set<Tag>, bound: nat)
    requires bound <= TAG_LIMIT
    ensures Distinct(Ascending(keys, bound))
  {
    if bound > 0 {
      AscendingDistinct(keys, bound - 1);
    }
  }

  function Elements(s: seq<Tag>): set<Tag> {
    set t | t in s
  }

  lemma {:induction false} DistinctSize(s: seq<Tag>)
    ensures |Elements(s)| <= |s|
    ensures |Elements(s)| == |s| <==> Distinct(s)
  {
    if s != [] {
      var n := |s| - 1;
      DistinctSize(s[..n]);
      assert s == s[..n] + [s[n]];
      assert Elements(s) == Elements(s[..n]) + {s[n]};
      if s[n] in s[..n] {
        assert Elements(s) == Elements(s[..n]);
      }
    }
  }

  // As many tags are listed as there are keys.
  lemma AscendingSize(keys: set<Tag>)
    ensures |Ascending(keys, TAG_LIMIT)| == |keys|
    ensures Elements(Ascending(keys, TAG_LIMIT)) == keys
  {
    var s := Ascending(keys, TAG_LIMIT);
    AscendingDistinct(keys, TAG_LIMIT);
    DistinctSize(s);
    forall t | t in keys ensures t in s {
      AscendingHasAll(keys, TAG_LIMIT, t);
    }
    assert Elements(s) == keys;
  }

  // ---- Building from the vendor operations ----

  predicate Acceptable(t: Tag, d: Def) {
    t >= VENDOR_BOUNDARY && d.name.Text? && d.section.Text? && 0 <= d.ttype < NUM_TYPES
  }

  function SectionsOf(tags: seq<Tag>, def: Tag -> Def): seq<string> {
    seq(|tags|, i requires 0 <= i < |tags| => if def(tags[i]).section.Text? then def(tags[i]).section.s else "")
  }

  function KeyOf(t: Tag, tags: map<Tag, Info>, sections: seq<string>): (string, string) {
    if t in tags && tags[t].section < |sections| then (sections[tags[t].section], tags[t].name) else ("", "")
  }

  // The reverse mapping: tags are entered one by one, so a later one replaces an earlier one of the same key.
  function Reversed(order: seq<Tag>, tags: map<Tag, Info>, sections: seq<string>): map<(string, string), Tag> {
    if order == [] then map[]
    else
      var t := order[|order| - 1];
      Reversed(order[..|order| - 1], tags, sections)[KeyOf(t, tags, sections) := t]
  }

  function InfoOf(t: Tag, d: Def, sections: seq<string>): Info {
    if d.name.Text? && d.section.Text? && d.section.s in sections
    then Info(d.name.s, d.ttype, IndexIn(sections, d.section.s)) else Info("", 0, 0)
  }

  function FromOps(tags: seq<Tag>, def: Tag -> Def): Result {
    if exists i :: 0 <= i < |tags| && !Acceptable(tags[i], def(tags[i])) then Err(BadValue)
    else
      var sections := AddedAll([], SectionsOf(tags, def));
      var infos := map t | t in tags :: InfoOf(t, def(t), sections);
      Ok(Descriptor(|tags|, infos, sections, Reversed(tags, infos, sections)))
  }

  // Building succeeds exactly when every listed tag is in the vendor range, 0x80000000 and up, and the operations give
  // it a name, a section and one of the six types.
  lemma BuildsExactly(tags: seq<Tag>, def: Tag -> Def)
    ensures FromOps(tags, def).Ok? <==>
              forall t | t in tags ::
                && 0x8000_0000 <= t && def(t).name != Null && def(t).section != Null
                && def(t).ttype in {0, 1, 2, 3, 4, 5}
    ensures FromOps(tags, def).Ok? || FromOps(tags, def) == Err(BadValue)
  {
    if FromOps(tags, def).Ok? {
      forall t | t in tags ensures Acceptable(t, def(t)) {
        var i :| 0 <= i < |tags| && tags[i] == t;
        assert Acceptable(tags[i], def(tags[i]));
      }
    } else {
      var i :| 0 <= i < |tags| && !Acceptable(tags[i], def(tags[i]));
      assert tags[i] in tags;
    }
  }

  // ---- The parcel ----

  datatype Item = I(n: int) | S(s: string)

  type Parcel = seq<Item>

  function Encoded(t: Tag, info: Info): Parcel {
    [I(t), I(info.ttype), S(info.name), I(info.section)]
  }

  function EncodedTags(order: seq<Tag>, tags: map<Tag, Info>): Parcel
    requires forall t | t in order :: t in tags
  {
    if order == [] then [] else Encoded(order[0], tags[order[0]]) + EncodedTags(order[1..], tags)
  }

  function EncodedStrings(ss: seq<string>): Parcel {
    if ss == [] then [] else [S(ss[0])] + EncodedStrings(ss[1..])
  }

  function EncodedSections(ss: seq<string>): Parcel {
    if ss == [] then [] else [I(|ss|)] + EncodedStrings(ss)
  }

  function Written(d: Descriptor): Parcel {
    [I(d.count)] + (EncodedTags(Ascending(d.tags.Keys, TAG_LIMIT), d.tags) + EncodedSections(d.sections))
  }

  // ---- Reading ----

  datatype TagRead = TagErr(status: Status) | TagOk(tag: Tag, info: Info)

  predicate IsInt(p: Parcel, i: nat) {
    i < |p| && p[i].I?
  }

  function ReadTag(p: Parcel): TagRead {
    if !IsInt(p, 0) then TagErr(NotEnoughData)
    else if !(VENDOR_BOUNDARY <= p[0].n < TAG_LIMIT) then TagErr(BadValue)
    else if !IsInt(p, 1) then TagErr(NotEnoughData)
    else if !(0 <= p[1].n < NUM_TYPES) then TagErr(BadValue)
    else if |p| < 3 || !p[2].S? || p[2].s == "" then TagErr(NotEnoughData)
    else if !IsInt(p, 3) || p[3].n < 0 then TagErr(NotEnoughData)
    else TagOk(p[0].n, Info(p[2].s, p[1].n, p[3].n))
  }

  datatype TagsRead = TagsErr(status: Status) | TagsOk(order: seq<Tag>, infos: seq<Info>, rest: Parcel)

  function ReadTags(p: Parcel, n: nat): TagsRead
    decreases n
  {
    if n == 0 then TagsOk([], [], p)
    else
      match ReadTag(p)
      case TagErr(e) => TagsErr(e)
      case TagOk(t, info) =>
        match ReadTags(p[4..], n - 1)
        case TagsErr(e) => TagsErr(e)
        case TagsOk(order, infos, rest) => TagsOk([t] + order, [info] + infos, rest)
  }

  datatype NamesRead = NamesErr(status: Status) | NamesOk(names: seq<string>)

  function ReadNames(p: Parcel, n: nat): NamesRead
    decreases n
  {
    if n == 0 then NamesOk([])
    else if p == [] || !p[0].S? || p[0].s == "" then NamesErr(NotEnoughData)
    else
      match ReadNames(p[1..], n - 1)
      case NamesErr(e) => NamesErr(e)
      case NamesOk(names) => NamesOk([p[0].s] + names)
  }

  // Adding to the keyed vectors in reading order: the last entry of a tag stays.
  function Entered(order: seq<Tag>, infos: seq<Info>): map<Tag, Info>
    requires |order| == |infos|
  {
    if order == [] then map[]
    else Entered(order[..|order| - 1], infos[..|order| - 1])[order[|order| - 1] := infos[|order| - 1]]
  }

  function MaxSection(infos: seq<Info>): nat {
    if infos == [] then 0
    else
      var m := MaxSection(infos[..|infos| - 1]);
      if infos[|infos| - 1].section > m then infos[|infos| - 1].section else m
  }

  function Assembled(count: nat, order: seq<Tag>, infos: seq<Info>, names: seq<string>): Result
    requires |order| == |infos|
  {
    var sections, tags := AddedAll([], names), Entered(order, infos);
    if exists t :: t in tags && tags[t].section >= |sections| then Err(OutOfRange)
    else Ok(Descriptor(count, tags, sections, Reversed(order, tags, sections)))
  }

  function ReadSections(count: nat, order: seq<Tag>, infos: seq<Info>, p: Parcel): Result
    requires |order| == |infos|
  {
    if !IsInt(p, 0) then Err(NotEnoughData)
    else if p[0].n < MaxSection(infos) + 1 then Err(BadValue)
    else
      match ReadNames(p[1..], p[0].n)
      case NamesErr(e) => Err(e)
      case NamesOk(names) => Assembled(count, order, infos, names)
  }

  lemma {:induction false} ReadTagsLengths(p: Parcel, n: nat)
    ensures ReadTags(p, n).TagsOk? ==> |ReadTags(p, n).order| == |ReadTags(p, n).infos| == n
    decreases n
  {
    if n > 0 && ReadTag(p).TagOk? {
      ReadTagsLengths(p[4..], n - 1);
    }
  }

  function AfterTags(n: nat, r: TagsRead): Result
    requires r.TagsOk? ==> |r.order| == |r.infos|
  {
    match r
    case TagsErr(e) => Err(e)
    case TagsOk(order, infos, rest) =>
      if n == 0 then Assembled(0, order, infos, []) else ReadSections(n, order, infos, rest)
  }

  function FromParcel(p: Parcel): Result {
    if !IsInt(p, 0) then Err(NotEnoughData)
    else if !(0 <= p[0].n <= INT32_MAX) then Err(BadValue)
    else
      var n: nat := p[0].n;
      ReadTagsLengths(p[1..], n);
      AfterTags(n, ReadTags(p[1..], n))
  }

  // ---- What any parcel that is read gives ----

  predicate ReadOk(t: Tag, info: Info) {
    0x8000_0000 <= t && info.ttype in {0, 1, 2, 3, 4, 5} && info.name != ""
  }

  lemma {:induction false} ReadTagsOk(p: Parcel, n: nat)
    ensures ReadTags(p, n).TagsOk? ==>
      var r := ReadTags(p, n);
      |r.order| == |r.infos| && forall i | 0 <= i < |r.order| :: ReadOk(r.order[i], r.infos[i])
    decreases n
  {
    if n > 0 && ReadTag(p).TagOk? {
      ReadTagsOk(p[4..], n - 1);
    }
  }

  lemma {:induction false} EnteredFrom(order: seq<Tag>, infos: seq<Info>, t: Tag) returns (i: nat)
    requires |order| == |infos| && t in Entered(order, infos)
    ensures i < |order| && order[i] == t && infos[i] == Entered(order, infos)[t]
  {
    var n := |order| - 1;
    if order[n] == t {
      i := n;
    } else {
      i := EnteredFrom(order[..n], infos[..n], t);
    }
  }

  lemma {:induction false} EnteredSize(order: seq<Tag>, infos: seq<Info>)
    requires |order| == |infos|
    ensures |Entered(order, infos)| <= |order|
  {
    if order != [] {
      var n := |order| - 1;
      var before := Entered(order[..n], infos[..n]);
      EnteredSize(order[..n], infos[..n]);
      assert before[order[n] := infos[n]].Keys == before.Keys + {order[n]};
      assert |before[order[n] := infos[n]].Keys| <= |before.Keys| + 1;
    }
  }

  lemma {:induction false} ReadNamesOk(p: Parcel, n: nat)
    ensures ReadNames(p, n).NamesOk? ==> |ReadNames(p, n).names| == n && NoneEmpty(ReadNames(p, n).names)
    decreases n
  {
    if n > 0 && p != [] {
      ReadNamesOk(p[1..], n - 1);
    }
  }

  lemma SectionsOk(names: seq<string>)
    requires NoneEmpty(names)
    ensures Ascends(AddedAll([], names)) && NoneEmpty(AddedAll([], names))
  {
    AddedAllAscends(names);
    forall i | 0 <= i < |AddedAll([], names)| ensures AddedAll([], names)[i] != "" {
      AddedAllMembers(names, AddedAll([], names)[i]);
    }
  }

  // What a descriptor read from a parcel keeps: the count of the parcel, tags of the vendor range with a name, one of
  // the six types and a section that exists, and sections that are named, sorted and single.
  predicate ReadSound(d: Descriptor, count: nat) {
    && d.count == count && |d.tags| <= count && Ascends(d.sections) && NoneEmpty(d.sections)
    && forall t | t in d.tags :: ReadOk(t, d.tags[t]) && d.tags[t].section < |d.sections|
  }

  lemma AssembledIsSound(count: nat, order: seq<Tag>, infos: seq<Info>, names: seq<string>)
    requires |order| == |infos| <= count && NoneEmpty(names) && Assembled(count, order, infos, names).Ok?
    requires forall i | 0 <= i < |order| :: ReadOk(order[i], infos[i])
    ensures ReadSound(Assembled(count, order, infos, names).desc, count)
  {
    SectionsOk(names);
    EnteredSize(order, infos);
    var tags := Entered(order, infos);
    forall t | t in tags ensures ReadOk(t, tags[t]) {
      var i := EnteredFrom(order, infos, t);
    }
  }

  // Whatever the parcel holds.
  lemma ReadIsSound(p: Parcel)
    requires FromParcel(p).Ok?
    ensures p != [] && p[0].I? && 0 <= p[0].n && ReadSound(FromParcel(p).desc, p[0].n)
  {
    var n: nat := p[0].n;
    var r := ReadTags(p[1..], n);
    ReadTagsOk(p[1..], n);
    ReadTagsLengths(p[1..], n);
    if n == 0 {
      AssembledIsSound(0, r.order, r.infos, []);
    } else {
      var k: nat := r.rest[0].n;
      ReadNamesOk(r.rest[1..], k);
      AssembledIsSound(n, r.order, r.infos, ReadNames(r.rest[1..], k).names);
    }
  }

  lemma {:induction false} MaxSectionIsGreatest(infos: seq<Info>)
    ensures forall i | 0 <= i < |infos| :: infos[i].section <= MaxSection(infos)
    ensures infos != [] ==> exists i | 0 <= i < |infos| :: infos[i].section == MaxSection(infos)
  {
    if infos != [] {
      var n := |infos| - 1;
      MaxSectionIsGreatest(infos[..n]);
      assert forall i | 0 <= i < n :: infos[..n][i] == infos[i];
      if infos[n].section <= MaxSection(infos[..n]) && n > 0 {
        var i :| 0 <= i < n && infos[..n][i].section == MaxSection(infos[..n]);
        assert infos[i].section == MaxSection(infos);
      } else {
        assert infos[n].section == MaxSection(infos);
      }
    }
  }

  // The section part is refused with BAD_VALUE exactly when there are too few sections for some tag, and with
  // OUT_OF_RANGE when there seemed to be enough and repeated names left too few.
  lemma SectionErrors(count: nat, order: seq<Tag>, infos: seq<Info>, p: Parcel)
    requires |order| == |infos| && infos != [] && IsInt(p, 0)
    ensures ReadSections(count, order, infos, p) == Err(BadValue) <==>
              exists i | 0 <= i < |infos| :: infos[i].section >= p[0].n
    ensures ReadSections(count, order, infos, p) == Err(OutOfRange) ==>
              exists t :: t in Entered(order, infos) && Entered(order, infos)[t].section < p[0].n
  {
    MaxSectionIsGreatest(infos);
    NamesErrors(p[1..], if p[0].n < 0 then 0 else p[0].n);
    if ReadSections(count, order, infos, p) == Err(OutOfRange) {
      var t :| t in Entered(order, infos);
      var i := EnteredFrom(order, infos, t);
    }
  }

  lemma {:induction false} NamesErrors(p: Parcel, n: nat)
    ensures ReadNames(p, n).NamesErr? ==> ReadNames(p, n).status == NotEnoughData
    decreases n
  {
    if n > 0 && p != [] {
      NamesErrors(p[1..], n - 1);
    }
  }

  // ---- Descriptors that the vendor operations can produce ----

  predicate InfoOk(t: Tag, info: Info, sections: seq<string>) {
    t >= VENDOR_BOUNDARY && 0 <= info.ttype < NUM_TYPES && info.section < |sections|
  }

  predicate Sound(d: Descriptor) {
    && Ascends(d.sections) && |d.sections| <= d.count <= INT32_MAX && |d.tags| <= d.count
    && (d.count == 0 <==> d.sections == []) && (d.count == 0 <==> d.tags == map[])
    && (forall t | t in d.tags :: InfoOk(t, d.tags[t], d.sections))
  }

  predicate AllNamed(order: seq<Tag>, tags: map<Tag, Info>)
    requires forall t | t in order :: t in tags
  {
    forall i | 0 <= i < |order| :: tags[order[i]].name != ""
  }

  predicate NoneEmpty(ss: seq<string>) {
    forall i | 0 <= i < |ss| :: ss[i] != ""
  }

  lemma {:induction false} AddedAllSize(xs: seq<string>)
    ensures |AddedAll([], xs)| <= |xs|
    ensures xs != [] ==> AddedAll([], xs) != []
  {
    if xs != [] {
      AddedAllSize(xs[..|xs| - 1]);
      AddedSize(AddedAll([], xs[..|xs| - 1]), xs[|xs| - 1]);
    }
  }

  lemma {:induction false} AddedSize(ss: seq<string>, x: string)
    ensures 1 <= |Added(ss, x)| <= |ss| + 1
  {
    if ss != [] {
      AddedSize(ss[1..], x);
    }
  }

  lemma SectionKnown(tags: seq<Tag>, def: Tag -> Def, t: Tag)
    requires t in tags && def(t).section.Text?
    ensures def(t).section.s in AddedAll([], SectionsOf(tags, def))
  {
    var i :| 0 <= i < |tags| && tags[i] == t;
    assert SectionsOf(tags, def)[i] == def(t).section.s;
    AddedAllMembers(SectionsOf(tags, def), def(t).section.s);
  }

  // Building keeps what the operations say about every tag, and is sound.
  lemma FromOpsIsSound(tags: seq<Tag>, def: Tag -> Def)
    requires FromOps(tags, def).Ok? && |tags| <= INT32_MAX
    ensures var d := FromOps(tags, def).desc;
      Sound(d) && d.count == |tags| && d.tags.Keys == Elements(tags)
    ensures var d := FromOps(tags, def).desc;
      forall t | t in tags ::
        && t in d.tags && d.tags[t].section < |d.sections|
        && def(t) == Def(Text(d.tags[t].name), Text(d.sections[d.tags[t].section]), d.tags[t].ttype)
  {
    var d := FromOps(tags, def).desc;
    AddedAllAscends(SectionsOf(tags, def));
    AddedAllSize(SectionsOf(tags, def));
    assert d.tags.Keys == Elements(tags);
    DistinctSize(tags);
    forall t | t in tags
      ensures InfoOk(t, d.tags[t], d.sections) && t in d.tags
      ensures def(t) == Def(Text(d.tags[t].name), Text(d.sections[d.tags[t].section]), d.tags[t].ttype)
    {
      var i :| 0 <= i < |tags| && tags[i] == t;
      assert Acceptable(tags[i], def(tags[i]));
      SectionKnown(tags, def, t);
    }
    if tags != [] {
      assert tags[0] in d.tags;
    }
  }

  // ---- Reading what was written ----

  function InfosOf(order: seq<Tag>, tags: map<Tag, Info>): seq<Info>
    requires forall t | t in order :: t in tags
  {
    seq(|order|, i requires 0 <= i < |order| => tags[order[i]])
  }

  predicate Readable(order: seq<Tag>, tags: map<Tag, Info>) {
    forall i | 0 <= i < |order| ::
      order[i] in tags && order[i] >= VENDOR_BOUNDARY && 0 <= tags[order[i]].ttype < NUM_TYPES
  }

  lemma ReadTagEncoded(t: Tag, info: Info, rest: Parcel)
    requires t >= VENDOR_BOUNDARY && 0 <= info.ttype < NUM_TYPES
    ensures ReadTag(Encoded(t, info) + rest) == if info.name == "" then TagErr(NotEnoughData) else TagOk(t, info)
    ensures (Encoded(t, info) + rest)[4..] == rest
  {
  }

  // The first tag of an encoded list, and what follows it.
  lemma EncodedTagsHead(order: seq<Tag>, tags: map<Tag, Info>, rest: Parcel)
    requires order != [] && Readable(order, tags)
    ensures var p, info := EncodedTags(order, tags) + rest, tags[order[0]];
      && |p| >= 4 && p[4..] == EncodedTags(order[1..], tags) + rest
      && ReadTag(p) == if info.name == "" then TagErr(NotEnoughData) else TagOk(order[0], info)
  {
    var info, more := tags[order[0]], EncodedTags(order[1..], tags);
    Regroup(Encoded(order[0], info), more, rest);
    ReadTagEncoded(order[0], info, more + rest);
  }

  lemma Regroup(a: Parcel, b: Parcel, c: Parcel)
    ensures a + b + c == a + (b + c)
  {
  }

  lemma InfosOfHead(order: seq<Tag>, tags: map<Tag, Info>)
    requires order != [] && forall t | t in order :: t in tags
    ensures [tags[order[0]]] + InfosOf(order[1..], tags) == InfosOf(order, tags)
    ensures [order[0]] + order[1..] == order
  {
  }

  lemma ReadTagsStep(p: Parcel, n: nat, order: seq<Tag>, infos: seq<Info>, rest: Parcel)
    requires n > 0 && ReadTag(p).TagOk? && ReadTags(p[4..], n - 1) == TagsOk(order, infos, rest)
    ensures ReadTags(p, n) == TagsOk([ReadTag(p).tag] + order, [ReadTag(p).info] + infos, rest)
  {
  }

  lemma {:induction false} ReadTagsEncoded(order: seq<Tag>, tags: map<Tag, Info>, rest: Parcel)
    requires Readable(order, tags) && AllNamed(order, tags)
    ensures ReadTags(EncodedTags(order, tags) + rest, |order|) == TagsOk(order, InfosOf(order, tags), rest)
    decreases |order|
  {
    if order == [] {
      assert EncodedTags(order, tags) + rest == rest;
    } else {
      EncodedTagsHead(order, tags, rest);
      ReadTagsEncoded(order[1..], tags, rest);
      InfosOfHead(order, tags);
      ReadTagsStep(EncodedTags(order, tags) + rest, |order|, order[1..], InfosOf(order[1..], tags), rest);
    }
  }

  // A nameless tag stops the reader, and so does a count larger than the number of tags written.
  lemma {:induction false} ReadTagsFails(order: seq<Tag>, tags: map<Tag, Info>, rest: Parcel, n: nat)
    requires Readable(order, tags) && |order| <= n
    requires !AllNamed(order, tags) || (|order| < n && ReadTag(rest).TagErr?)
    ensures ReadTags(EncodedTags(order, tags) + rest, n).TagsErr?
    decreases |order|
  {
    if order == [] {
      assert EncodedTags(order, tags) + rest == rest;
    } else {
      EncodedTagsHead(order, tags, rest);
      if tags[order[0]].name != "" {
        assert AllNamed(order[1..], tags) ==> AllNamed(order, tags);
        ReadTagsFails(order[1..], tags, rest, n - 1);
      }
    }
  }

  lemma {:induction false} ReadNamesEncoded(ss: seq<string>)
    ensures ReadNames(EncodedStrings(ss), |ss|) == if NoneEmpty(ss) then NamesOk(ss) else NamesErr(NotEnoughData)
  {
    if ss != [] {
      ReadNamesEncoded(ss[1..]);
      assert EncodedStrings(ss)[1..] == EncodedStrings(ss[1..]);
      assert [ss[0]] + ss[1..] == ss;
      assert NoneEmpty(ss) <==> ss[0] != "" && NoneEmpty(ss[1..]);
    }
  }

  lemma {:induction false} EnteredInfos(order: seq<Tag>, tags: map<Tag, Info>)
    requires forall t | t in order :: t in tags
    ensures Entered(order, InfosOf(order, tags)) == map t | t in order :: tags[t]
  {
    if order != [] {
      var n := |order| - 1;
      EnteredInfos(order[..n], tags);
      assert InfosOf(order, tags)[..n] == InfosOf(order[..n], tags);
      assert order == order[..n] + [order[n]];
    }
  }

  lemma {:induction false} MaxSectionBelow(infos: seq<Info>, bound: nat)
    requires bound > 0 && forall i | 0 <= i < |infos| :: infos[i].section < bound
    ensures MaxSection(infos) < bound
  {
    if infos != [] {
      MaxSectionBelow(infos[..|infos| - 1], bound);
    }
  }

  function Order(d: Descriptor): seq<Tag> {
    Ascending(d.tags.Keys, TAG_LIMIT)
  }

  lemma OrderOf(d: Descriptor)
    requires Sound(d)
    ensures Readable(Order(d), d.tags) && |Order(d)| == |d.tags| && Elements(Order(d)) == d.tags.Keys
    ensures forall t :: t in Order(d) <==> t in d.tags
  {
    AscendingSize(d.tags.Keys);
    forall t ensures t in Order(d) <==> t in d.tags {
      assert t in Elements(Order(d)) <==> t in Order(d);
    }
    forall i | 0 <= i < |Order(d)|
      ensures Order(d)[i] in d.tags && InfoOk(Order(d)[i], d.tags[Order(d)[i]], d.sections)
    {
      assert Order(d)[i] in Order(d);
    }
  }

  // What a reader makes of a written descriptor when nothing is missing.
  function Reread(d: Descriptor): Descriptor {
    d.(reverse := Reversed(Order(d), d.tags, d.sections))
  }

  lemma AssembledWritten(d: Descriptor)
    requires Sound(d) && forall t | t in Order(d) :: t in d.tags
    requires Elements(Order(d)) == d.tags.Keys
    ensures Assembled(d.count, Order(d), InfosOf(Order(d), d.tags), d.sections) == Ok(Reread(d))
  {
    var order := Order(d);
    EnteredInfos(order, d.tags);
    AddedAllSorted(d.sections);
    forall t ensures t in order <==> t in d.tags {
      assert t in Elements(order) <==> t in order;
    }
    assert (map t | t in order :: d.tags[t]) == d.tags;
    assert forall t | t in d.tags :: InfoOk(t, d.tags[t], d.sections);
  }

  lemma SectionsWritten(d: Descriptor)
    requires Sound(d) && d.count > 0 && Readable(Order(d), d.tags) && Elements(Order(d)) == d.tags.Keys
    ensures ReadSections(d.count, Order(d), InfosOf(Order(d), d.tags), EncodedSections(d.sections))
         == if NoneEmpty(d.sections) then Ok(Reread(d)) else Err(NotEnoughData)
  {
    var infos := InfosOf(Order(d), d.tags);
    forall i | 0 <= i < |infos| ensures infos[i].section < |d.sections| {
      assert InfoOk(Order(d)[i], d.tags[Order(d)[i]], d.sections);
    }
    MaxSectionBelow(infos, |d.sections|);
    ReadNamesEncoded(d.sections);
    assert EncodedSections(d.sections)[1..] == EncodedStrings(d.sections);
    AssembledWritten(d);
  }

  // What a caller can see of a descriptor without a name anywhere missing and no tag listed twice.
  predicate Complete(d: Descriptor) {
    d.count == |d.tags| && NoneEmpty(d.sections) && forall t | t in d.tags :: d.tags[t].name != ""
  }

  lemma CompleteIsRead(d: Descriptor)
    requires Sound(d) && Complete(d)
    ensures FromParcel(Written(d)) == Ok(Reread(d))
  {
    OrderOf(d);
    NamedAlike(d);
    FromParcelWritten(d);
    ReadTagsEncoded(Order(d), d.tags, EncodedSections(d.sections));
    if d.count == 0 {
      AssembledWritten(d);
    } else {
      SectionsWritten(d);
    }
  }

  lemma IncompleteIsRefused(d: Descriptor)
    requires Sound(d) && !Complete(d)
    ensures FromParcel(Written(d)).Err?
  {
    OrderOf(d);
    NamedAlike(d);
    FromParcelWritten(d);
    if AllNamed(Order(d), d.tags) && d.count == |d.tags| {
      ReadTagsEncoded(Order(d), d.tags, EncodedSections(d.sections));
      SectionsWritten(d);
    } else {
      ReadTagsFails(Order(d), d.tags, EncodedSections(d.sections), d.count);
    }
  }

  // A written descriptor can be read back exactly when it is complete, and then comes back with the same
  // tags, names, types and sections.
  lemma ReadWrittenExactly(d: Descriptor)
    requires Sound(d)
    ensures FromParcel(Written(d)) == Ok(Reread(d)) <==> Complete(d)
    ensures FromParcel(Written(d)).Err? <==> !Complete(d)
  {
    if Complete(d) {
      CompleteIsRead(d);
    } else {
      IncompleteIsRefused(d);
    }
  }

  lemma FromParcelWritten(d: Descriptor)
    requires Sound(d) && Readable(Order(d), d.tags)
    ensures var r := ReadTags(EncodedTags(Order(d), d.tags) + EncodedSections(d.sections), d.count);
      (r.TagsOk? ==> |r.order| == |r.infos|) && FromParcel(Written(d)) == AfterTags(d.count, r)
  {
    var body := EncodedTags(Order(d), d.tags) + EncodedSections(d.sections);
    assert Written(d)[1..] == body;
    ReadTagsLengths(body, d.count);
  }

  lemma NamedAlike(d: Descriptor)
    requires forall t :: t in Order(d) <==> t in d.tags
    ensures (forall t | t in d.tags :: d.tags[t].name != "") <==> AllNamed(Order(d), d.tags)
  {
    if AllNamed(Order(d), d.tags) {
      forall t | t in d.tags ensures d.tags[t].name != "" {
        assert t in Order(d);
      }
    }
  }

  // ---- The reverse mapping ----

  lemma {:induction false} ReversedValues(order: seq<Tag>, tags: map<Tag, Info>, sections: seq<string>,
                                          k: (string, string))
    ensures k in Reversed(order, tags, sections)
       <==> exists i :: 0 <= i < |order| && KeyOf(order[i], tags, sections) == k
    ensures k in Reversed(order, tags, sections)
         ==> var t := Reversed(order, tags, sections)[k]; t in order && KeyOf(t, tags, sections) == k
  {
    if order != [] {
      var n := |order| - 1;
      ReversedValues(order[..n], tags, sections, k);
      if KeyOf(order[n], tags, sections) != k {
        forall i | 0 <= i < |order| && KeyOf(order[i], tags, sections) == k
          ensures order[..n][i] == order[i] && KeyOf(order[..n][i], tags, sections) == k
        {
        }
      }
    }
  }

  predicate UniqueNames(order: seq<Tag>, tags: map<Tag, Info>, sections: seq<string>) {
    forall t, u | t in order && u in order && KeyOf(t, tags, sections) == KeyOf(u, tags, sections) :: t == u
  }

  // lookupTag: the tag of a name in a section, or BAD_VALUE.
  function LookupTag(d: Descriptor, name: string, section: string): Lookup {
    if (section, name) in d.reverse then Found(d.reverse[(section, name)]) else NotFound
  }

  predicate LooksUp(d: Descriptor, t: Tag) {
    var k := KeyOf(t, d.tags, d.sections);
    LookupTag(d, k.1, k.0) == Found(t)
  }

  // Looking a tag up by its own section and name finds that tag, for every tag, exactly when no two tags share
  // both.
  lemma LookupInvertsExactly(d: Descriptor, order: seq<Tag>)
    requires d.reverse == Reversed(order, d.tags, d.sections)
    ensures (forall t | t in order :: LooksUp(d, t)) <==> UniqueNames(order, d.tags, d.sections)
  {
    forall t | t in order
      ensures var k := KeyOf(t, d.tags, d.sections);
        k in d.reverse && d.reverse[k] in order && KeyOf(d.reverse[k], d.tags, d.sections) == k
    {
      var i :| 0 <= i < |order| && order[i] == t;
      ReversedValues(order, d.tags, d.sections, KeyOf(t, d.tags, d.sections));
    }
  }

  // Names outside the descriptor are not found.
  lemma LookupFindsOnlyNamed(d: Descriptor, order: seq<Tag>, name: string, section: string)
    requires d.reverse == Reversed(order, d.tags, d.sections)
    ensures LookupTag(d, name, section).Found?
       <==> exists i :: 0 <= i < |order| && KeyOf(order[i], d.tags, d.sections) == (section, name)
  {
    ReversedValues(order, d.tags, d.sections, (section, name));
  }

  // No tag after position i has the same section and name.
  predicate IsLast(order: seq<Tag>, tags: map<Tag, Info>, sections: seq<string>, i: nat)
    requires i < |order|
  {
    forall k | i < k < |order| :: KeyOf(order[k], tags, sections) != KeyOf(order[i], tags, sections)
  }

  lemma {:induction false} LastOfKey(order: seq<Tag>, tags: map<Tag, Info>, sections: seq<string>, i: nat)
    returns (last: nat)
    requires i < |order|
    ensures i <= last < |order| && IsLast(order, tags, sections, last)
    ensures KeyOf(order[last], tags, sections) == KeyOf(order[i], tags, sections)
    decreases |order| - i
  {
    last := i;
    if !IsLast(order, tags, sections, i) {
      var k :| i < k < |order| && KeyOf(order[k], tags, sections) == KeyOf(order[i], tags, sections);
      last := LastOfKey(order, tags, sections, k);
    }
  }

  // The reverse mapping keeps, of all tags with one section and name, the last entered.
  lemma {:induction false} ReversedKeepsLast(order: seq<Tag>, tags: map<Tag, Info>, sections: seq<string>, i: nat)
    requires i < |order| && IsLast(order, tags, sections, i)
    ensures var k := KeyOf(order[i], tags, sections);
            k in Reversed(order, tags, sections) && Reversed(order, tags, sections)[k] == order[i]
  {
    var n := |order| - 1;
    if i < n {
      assert KeyOf(order[n], tags, sections) != KeyOf(order[i], tags, sections);
      assert IsLast(order[..n], tags, sections, i);
      ReversedKeepsLast(order[..n], tags, sections, i);
    }
  }

  lemma {:induction false} AscendingOrder(keys: set<Tag>, bound: nat, i: nat, j: nat)
    requires bound <= TAG_LIMIT && i <= j < |Ascending(keys, bound)|
    ensures Ascending(keys, bound)[i] <= Ascending(keys, bound)[j]
  {
    if j < |Ascending(keys, bound - 1)| {
      AscendingOrder(keys, bound - 1, i, j);
    } else if i < j {
      assert Ascending(keys, bound)[i] in Ascending(keys, bound - 1);
    }
  }

  predicate Ascend(order: seq<Tag>) {
    forall i, j | 0 <= i <= j < |order| :: order[i] <= order[j]
  }

  // Of the tags with one section and name, the last listed is the highest.
  predicate LastIsHighest(order: seq<Tag>, tags: map<Tag, Info>, sections: seq<string>) {
    forall i, j | 0 <= i < |order| && 0 <= j < |order| && IsLast(order, tags, sections, i) &&
                  KeyOf(order[j], tags, sections) == KeyOf(order[i], tags, sections) ::
      order[j] <= order[i]
  }

  lemma HighestIsKept(a: seq<Tag>, b: seq<Tag>, tags: map<Tag, Info>, sections: seq<string>, k: (string, string))
    requires (forall t :: t in a <==> t in b) && Ascend(b) && LastIsHighest(a, tags, sections)
    requires k in Reversed(a, tags, sections)
    ensures k in Reversed(b, tags, sections) && Reversed(b, tags, sections)[k] == Reversed(a, tags, sections)[k]
  {
    ReversedValues(a, tags, sections, k);
    var n :| 0 <= n < |a| && KeyOf(a[n], tags, sections) == k;
    var i := LastOfKey(a, tags, sections, n);
    ReversedKeepsLast(a, tags, sections, i);
    assert a[i] in b;
    var p :| 0 <= p < |b| && b[p] == a[i];
    var q := LastOfKey(b, tags, sections, p);
    ReversedKeepsLast(b, tags, sections, q);
    assert b[q] in a;
    var j :| 0 <= j < |a| && a[j] == b[q];
  }

  lemma KeptIsHighest(a: seq<Tag>, b: seq<Tag>, tags: map<Tag, Info>, sections: seq<string>)
    requires (forall t :: t in a <==> t in b) && Ascend(b)
    requires Reversed(a, tags, sections) == Reversed(b, tags, sections)
    ensures LastIsHighest(a, tags, sections)
  {
    forall i, j | 0 <= i < |a| && 0 <= j < |a| && IsLast(a, tags, sections, i) &&
                  KeyOf(a[j], tags, sections) == KeyOf(a[i], tags, sections)
      ensures a[j] <= a[i]
    {
      ReversedKeepsLast(a, tags, sections, i);
      assert a[j] in b;
      var p :| 0 <= p < |b| && b[p] == a[j];
      var q := LastOfKey(b, tags, sections, p);
      ReversedKeepsLast(b, tags, sections, q);
    }
  }

  // Entering the tags in ascending order gives the reverse mapping of another order exactly when
  // that order, too, ends with the highest of each section and name.
  lemma ReversedSameExactly(a: seq<Tag>, b: seq<Tag>, tags: map<Tag, Info>, sections: seq<string>)
    requires (forall t :: t in a <==> t in b) && Ascend(b)
    ensures Reversed(a, tags, sections) == Reversed(b, tags, sections) <==> LastIsHighest(a, tags, sections)
  {
    var ra, rb := Reversed(a, tags, sections), Reversed(b, tags, sections);
    if LastIsHighest(a, tags, sections) {
      forall k | k in ra ensures k in rb && rb[k] == ra[k] {
        HighestIsKept(a, b, tags, sections, k);
      }
      forall k | k in rb ensures k in ra {
        ReversedValues(b, tags, sections, k);
        ReversedValues(a, tags, sections, k);
        var i :| 0 <= i < |a| && a[i] == rb[k];
      }
    } else if ra == rb {
      KeptIsHighest(a, b, tags, sections);
    }
  }

  // ---- The whole way, in terms of what the vendor operations report ----

  // Every tag is listed once, and has a name and a section to be named in.
  predicate Named(tags: seq<Tag>, def: Tag -> Def) {
    Distinct(tags) && forall t | t in tags :: def(t).name != Text("") && def(t).section != Text("")
  }

  predicate Alike(def: Tag -> Def, t: Tag, u: Tag) {
    def(t).name == def(u).name && def(t).section == def(u).section
  }

  // Of the tags that share section and name, the last listed is the highest.
  predicate EndsHighest(tags: seq<Tag>, def: Tag -> Def) {
    forall i, j | 0 <= i < |tags| && 0 <= j < |tags| && Alike(def, tags[j], tags[i]) &&
                  (forall k | i < k < |tags| :: !Alike(def, tags[k], tags[i])) ::
      tags[j] <= tags[i]
  }

  lemma AlikeIsSameKey(tags: seq<Tag>, def: Tag -> Def, t: Tag, u: Tag)
    requires FromOps(tags, def).Ok? && |tags| <= INT32_MAX && t in tags && u in tags
    ensures var d := FromOps(tags, def).desc;
            Alike(def, t, u) <==> KeyOf(t, d.tags, d.sections) == KeyOf(u, d.tags, d.sections)
  {
    FromOpsIsSound(tags, def);
  }

  lemma EndsHighestAlike(tags: seq<Tag>, def: Tag -> Def)
    requires FromOps(tags, def).Ok? && |tags| <= INT32_MAX
    ensures var d := FromOps(tags, def).desc;
            EndsHighest(tags, def) <==> LastIsHighest(tags, d.tags, d.sections)
  {
    var d := FromOps(tags, def).desc;
    forall i, j | 0 <= i < |tags| && 0 <= j < |tags|
      ensures Alike(def, tags[j], tags[i])
         <==> KeyOf(tags[j], d.tags, d.sections) == KeyOf(tags[i], d.tags, d.sections)
    {
      AlikeIsSameKey(tags, def, tags[j], tags[i]);
    }
    forall i | 0 <= i < |tags|
      ensures IsLast(tags, d.tags, d.sections, i) <==> forall k | i < k < |tags| :: !Alike(def, tags[k], tags[i])
    {
    }
  }

  lemma SectionUsed(tags: seq<Tag>, def: Tag -> Def, i: nat) returns (t: Tag)
    requires FromOps(tags, def).Ok? && i < |FromOps(tags, def).desc.sections|
    ensures t in tags && def(t).section == Text(FromOps(tags, def).desc.sections[i])
  {
    var all, section := SectionsOf(tags, def), FromOps(tags, def).desc.sections[i];
    AddedAllMembers(all, section);
    var j :| 0 <= j < |all| && all[j] == section;
    assert Acceptable(tags[j], def(tags[j]));
    t := tags[j];
  }

  lemma SectionsNamed(tags: seq<Tag>, def: Tag -> Def)
    requires FromOps(tags, def).Ok? && |tags| <= INT32_MAX
    ensures NoneEmpty(FromOps(tags, def).desc.sections) <==> forall t | t in tags :: def(t).section != Text("")
  {
    FromOpsIsSound(tags, def);
    var sections := FromOps(tags, def).desc.sections;
    if forall t | t in tags :: def(t).section != Text("") {
      forall i | 0 <= i < |sections| ensures sections[i] != "" {
        var t := SectionUsed(tags, def, i);
      }
    }
  }

  lemma TagsNamed(tags: seq<Tag>, def: Tag -> Def)
    requires FromOps(tags, def).Ok? && |tags| <= INT32_MAX
    ensures var d := FromOps(tags, def).desc;
            (forall t | t in d.tags :: d.tags[t].name != "") <==> forall t | t in tags :: def(t).name != Text("")
  {
    FromOpsIsSound(tags, def);
    var d := FromOps(tags, def).desc;
    forall t ensures t in tags <==> t in d.tags {
      assert t in Elements(tags) <==> t in d.tags.Keys;
    }
  }

  lemma NamedIsComplete(tags: seq<Tag>, def: Tag -> Def)
    requires FromOps(tags, def).Ok? && |tags| <= INT32_MAX
    ensures Named(tags, def) <==> Complete(FromOps(tags, def).desc)
  {
    CountIsCompleteExactly(tags, def);
    SectionsNamed(tags, def);
    TagsNamed(tags, def);
  }

  // Operations to descriptor to parcel and back. Reading succeeds exactly when every tag is listed
  // once with a name and a section; it gives back the descriptor exactly when, besides, tags that
  // share both end with the highest, because the parcel is in ascending order.
  lemma OpsRoundTripExactly(tags: seq<Tag>, def: Tag -> Def)
    requires FromOps(tags, def).Ok? && |tags| <= INT32_MAX
    ensures FromParcel(Written(FromOps(tags, def).desc)).Ok? <==> Named(tags, def)
    ensures FromParcel(Written(FromOps(tags, def).desc)) == FromOps(tags, def)
       <==> Named(tags, def) && EndsHighest(tags, def)
  {
    var d := FromOps(tags, def).desc;
    FromOpsIsSound(tags, def);
    ReadWrittenExactly(d);
    NamedIsComplete(tags, def);
    OrderOf(d);
    forall t ensures t in tags <==> t in Order(d) {
      assert t in Elements(tags) <==> t in d.tags.Keys;
    }
    forall i, j | 0 <= i <= j < |Order(d)| ensures Order(d)[i] <= Order(d)[j] {
      AscendingOrder(d.tags.Keys, TAG_LIMIT, i, j);
    }
    EndsHighestAlike(tags, def);
    ReversedSameExactly(tags, Order(d), d.tags, d.sections);
  }

  // No two tags share section and name.
  predicate NamedApart(tags: seq<Tag>, def: Tag -> Def) {
    forall t, u | t in tags && u in tags && Alike(def, t, u) :: t == u
  }

  // Looking up what the operations report of a tag finds the tag.
  predicate FindsItself(d: Descriptor, def: Tag -> Def, t: Tag) {
    && def(t).name.Text? && def(t).section.Text?
    && LookupTag(d, def(t).name.s, def(t).section.s) == Found(t)
  }

  // d holds what the operations report, whatever its reverse mapping.
  predicate Tells(d: Descriptor, tags: seq<Tag>, def: Tag -> Def) {
    && FromOps(tags, def).Ok? && |tags| <= INT32_MAX
    && d.tags == FromOps(tags, def).desc.tags && d.sections == FromOps(tags, def).desc.sections
  }

  lemma FindsIsLooksUp(d: Descriptor, tags: seq<Tag>, def: Tag -> Def, t: Tag)
    requires Tells(d, tags, def) && t in tags
    ensures FindsItself(d, def, t) <==> LooksUp(d, t)
  {
    FromOpsIsSound(tags, def);
  }

  lemma ApartIsUnique(d: Descriptor, tags: seq<Tag>, def: Tag -> Def, order: seq<Tag>)
    requires Tells(d, tags, def) && forall t :: t in order <==> t in tags
    ensures NamedApart(tags, def) <==> UniqueNames(order, d.tags, d.sections)
  {
    forall t, u | t in tags && u in tags
      ensures Alike(def, t, u) <==> KeyOf(t, d.tags, d.sections) == KeyOf(u, d.tags, d.sections)
    {
      AlikeIsSameKey(tags, def, t, u);
    }
  }

  lemma FindsExactly(d: Descriptor, tags: seq<Tag>, def: Tag -> Def, order: seq<Tag>)
    requires Tells(d, tags, def) && (forall t :: t in order <==> t in tags)
    requires d.reverse == Reversed(order, d.tags, d.sections)
    ensures (forall t | t in tags :: FindsItself(d, def, t)) <==> NamedApart(tags, def)
  {
    LookupInvertsExactly(d, order);
    ApartIsUnique(d, tags, def, order);
    forall t | t in tags ensures FindsItself(d, def, t) <==> LooksUp(d, t) {
      FindsIsLooksUp(d, tags, def, t);
    }
  }

  // Every tag is found by its section and name if and only if no two tags share both, in the descriptor built from
  // the operations and, if that can be read at all, in the one read back from its parcel.
  lemma OpsLookupExactly(tags: seq<Tag>, def: Tag -> Def)
    requires FromOps(tags, def).Ok? && |tags| <= INT32_MAX
    ensures (forall t | t in tags :: FindsItself(FromOps(tags, def).desc, def, t)) <==> NamedApart(tags, def)
    ensures Named(tags, def) ==>
      var read := FromParcel(Written(FromOps(tags, def).desc));
      read.Ok? && ((forall t | t in tags :: FindsItself(read.desc, def, t)) <==> NamedApart(tags, def))
  {
    var d := FromOps(tags, def).desc;
    FindsExactly(d, tags, def, tags);
    if Named(tags, def) {
      FromOpsIsSound(tags, def);
      NamedIsComplete(tags, def);
      ReadWrittenExactly(d);
      OrderOf(d);
      forall t ensures t in Order(d) <==> t in tags {
        assert t in Elements(tags) <==> t in d.tags.Keys;
      }
      FindsExactly(Reread(d), tags, def, Order(d));
    }
  }

  // Listing a tag twice is the only way to an incomplete count.
  lemma CountIsCompleteExactly(tags: seq<Tag>, def: Tag -> Def)
    requires FromOps(tags, def).Ok? && |tags| <= INT32_MAX
    ensures FromOps(tags, def).desc.count == |FromOps(tags, def).desc.tags| <==> Distinct(tags)
  {
    FromOpsIsSound(tags, def);
    DistinctSize(tags);
    var d := FromOps(tags, def).desc;
    assert |d.tags| == |d.tags.Keys|;
  }
}

// The loops that build, write and read descriptors.
module VendorTagLoops {
  import opened StringOrder
  import opened VendorTags

  lemma SectionsOfSnoc(tags: seq<Tag>, def: Tag -> Def, i: nat)
    requires i < |tags| && def(tags[i]).section.Text?
    ensures AddedAll([], SectionsOf(tags[..i + 1], def))
         == Added(AddedAll([], SectionsOf(tags[..i], def)), def(tags[i]).section.s)
  {
    var xs := SectionsOf(tags[..i + 1], def);
    assert xs[..i] == SectionsOf(tags[..i], def) && xs[i] == def(tags[i]).section.s;
  }

  method CollectSections(tags: seq<Tag>, def: Tag -> Def) returns (ok: bool, sections: seq<string>)
    ensures ok <==> forall i | 0 <= i < |tags| :: Acceptable(tags[i], def(tags[i]))
    ensures ok ==> sections == AddedAll([], SectionsOf(tags, def))
  {
    ok, sections := true, [];
    assert SectionsOf(tags[..0], def) == [];
    for i := 0 to |tags|
      invariant forall j | 0 <= j < i :: Acceptable(tags[j], def(tags[j]))
      invariant sections == AddedAll([], SectionsOf(tags[..i], def))
    {
      if !Acceptable(tags[i], def(tags[i])) {
        ok := false;
        return;
      }
      SectionsOfSnoc(tags, def, i);
      sections := Added(sections, def(tags[i]).section.s);
    }
    assert tags[..|tags|] == tags;
  }

  method CreateDescriptorFromOps(tags: seq<Tag>, def: Tag -> Def) returns (r: Result)
    ensures r == FromOps(tags, def)
  {
    var ok, sections := CollectSections(tags, def);
    if !ok {
      return Err(BadValue);
    }
    var infos := map t | t in tags :: InfoOf(t, def(t), sections);
    var reverse: map<(string, string), Tag> := map[];
    for i := 0 to |tags|
      invariant reverse == Reversed(tags[..i], infos, sections)
    {
      assert tags[..i + 1][..i] == tags[..i];
      reverse := reverse[KeyOf(tags[i], infos, sections) := tags[i]];
    }
    assert tags[..|tags|] == tags;
    r := Ok(Descriptor(|tags|, infos, sections, reverse));
  }

  lemma {:induction false} EncodedTagsSnoc(order: seq<Tag>, t: Tag, tags: map<Tag, Info>)
    requires t in tags && forall u | u in order :: u in tags
    ensures EncodedTags(order + [t], tags) == EncodedTags(order, tags) + Encoded(t, tags[t])
  {
    if order == [] {
      assert order + [t] == [t] && [t][1..] == [];
      assert Encoded(t, tags[t]) + [] == Encoded(t, tags[t]) == [] + Encoded(t, tags[t]);
    } else {
      EncodedTagsSnoc(order[1..], t, tags);
      assert (order + [t])[1..] == order[1..] + [t];
      Regroup(Encoded(order[0], tags[order[0]]), EncodedTags(order[1..], tags), Encoded(t, tags[t]));
    }
  }

  lemma {:induction false} EncodedStringsSnoc(ss: seq<string>, x: string)
    ensures EncodedStrings(ss + [x]) == EncodedStrings(ss) + [S(x)]
  {
    if ss == [] {
      assert ss + [x] == [x] && [x][1..] == [];
    } else {
      EncodedStringsSnoc(ss[1..], x);
      assert (ss + [x])[1..] == ss[1..] + [x];
    }
  }

  method WriteToParcel(d: Descriptor) returns (p: Parcel)
    ensures p == Written(d)
  {
    var order, body := Order(d), [];
    for i := 0 to |order|
      invariant body == EncodedTags(order[..i], d.tags)
    {
      EncodedTagsSnoc(order[..i], order[i], d.tags);
      assert order[..i + 1] == order[..i] + [order[i]];
      body := body + Encoded(order[i], d.tags[order[i]]);
    }
    assert order[..|order|] == order;
    var names: Parcel := [];
    for i := 0 to |d.sections|
      invariant names == EncodedStrings(d.sections[..i])
    {
      EncodedStringsSnoc(d.sections[..i], d.sections[i]);
      assert d.sections[..i + 1] == d.sections[..i] + [d.sections[i]];
      names := names + [S(d.sections[i])];
    }
    assert d.sections[..|d.sections|] == d.sections;
    p := [I(d.count)] + (body + if d.sections == [] then [] else [I(|d.sections|)] + names);
  }

  // The tags already read, put before the outcome of reading the rest.
  function Prepended(order: seq<Tag>, infos: seq<Info>, r: TagsRead): TagsRead {
    match r
    case TagsErr(e) => TagsErr(e)
    case TagsOk(o, i, rest) => TagsOk(order + o, infos + i, rest)
  }

  lemma PrependedStep(order: seq<Tag>, infos: seq<Info>, p: Parcel, n: nat)
    requires n > 0 && ReadTag(p).TagOk? && |p| >= 4
    ensures Prepended(order, infos, ReadTags(p, n))
         == Prepended(order + [ReadTag(p).tag], infos + [ReadTag(p).info], ReadTags(p[4..], n - 1))
  {
    var r := ReadTags(p[4..], n - 1);
    if r.TagsOk? {
      assert order + ([ReadTag(p).tag] + r.order) == order + [ReadTag(p).tag] + r.order;
      assert infos + ([ReadTag(p).info] + r.infos) == infos + [ReadTag(p).info] + r.infos;
    }
  }

  method ReadTagLoop(p: Parcel, n: nat) returns (r: TagsRead)
    ensures r == ReadTags(p, n)
  {
    var rest, order, infos := p, [], [];
    for i := 0 to n
      invariant |order| == |infos| == i
      invariant Prepended(order, infos, ReadTags(rest, n - i)) == ReadTags(p, n)
    {
      var one := ReadTag(rest);
      if one.TagErr? {
        return TagsErr(one.status);
      }
      PrependedStep(order, infos, rest, n - i);
      order, infos, rest := order + [one.tag], infos + [one.info], rest[4..];
    }
    r := TagsOk(order, infos, rest);
  }

  method CreateFromParcel(p: Parcel) returns (r: Result)
    ensures r == FromParcel(p)
  {
    if !IsInt(p, 0) {
      return Err(NotEnoughData);
    }
    if !(0 <= p[0].n <= INT32_MAX) {
      return Err(BadValue);
    }
    var tags := ReadTagLoop(p[1..], p[0].n);
    ReadTagsLengths(p[1..], p[0].n);
    r := AfterTags(p[0].n, tags);
  }
}
