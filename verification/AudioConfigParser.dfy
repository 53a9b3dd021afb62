// The element stack of the audio configuration parser (configmgr/audio_config.c, elem_table,
// parse_section_start, parse_section_end, parse_mixer_start, do_parse).

module ElementTable {
  // in the order of enum element_index
  datatype Elem =
    | Ctl | Path | Device | Stream | Enable | Disable | Case | Usecase
    | StreamCtl | Init | Mixer | AudioHal | CodecProbe | CodecCase

  const ALL_ELEMS: seq<Elem> :=
    [Ctl, Path, Device, Stream, Enable, Disable, Case, Usecase, StreamCtl, Init, Mixer, AudioHal, CodecProbe, CodecCase]

  function Name(e: Elem): string {
    match e
    case Ctl => "ctl"
    case Path => "path"
    case Device => "device"
    case Stream => "stream"
    case Enable => "enable"
    case Disable => "disable"
    case Case => "case"
    case Usecase => "usecase"
    case StreamCtl => "ctl"
    case Init => "init"
    case Mixer => "mixer"
    case AudioHal => "audiohal"
    case CodecProbe => "codec_probe"
    case CodecCase => "case"
  }

  // valid_subelem
  function Sub(e: Elem): set<Elem> {
    match e
    case Path => {Ctl}
    case Device => {Path}
    case Stream => {StreamCtl, Enable, Disable, Usecase}
    case Case => {Ctl}
    case Usecase => {Case}
    case Init => {Ctl}
    case Mixer => {Init}
    case AudioHal => {Mixer, CodecProbe}
    case CodecProbe => {CodecCase}
    case _ => {}
  }

  // What parse_mixer_start lets follow inside <audiohal>.
  const AFTER_MIXER: set<Elem> := {Device, Stream}

  // Where an element may stand, read from its own side. <audiohal> is the root.
  function Parents(e: Elem): set<Elem> {
    match e
    case Ctl => {Path, Case, Init}
    case Path => {Device}
    case Device => {AudioHal}
    case Stream => {AudioHal}
    case Enable => {Stream}
    case Disable => {Stream}
    case Case => {Usecase}
    case Usecase => {Stream}
    case StreamCtl => {Stream}
    case Init => {Mixer}
    case Mixer => {AudioHal}
    case AudioHal => {}
    case CodecProbe => {AudioHal}
    case CodecCase => {CodecProbe}
  }

  // The table of what an element may contain says the same from the other side.
  lemma TableIsParents(e: Elem, p: Elem)
    ensures p in Parents(e) <==> e in Sub(p) || (p == AudioHal && e in AFTER_MIXER)
  {
  }

  // A name stands for one element in every place, so the search for the first match has no choice to make.
  lemma NamesAreClear(p: Elem, e: Elem, f: Elem)
    requires (e in Sub(p) && f in Sub(p)) || (e in AFTER_MIXER && f in AFTER_MIXER)
    ensures Name(e) == Name(f) ==> e == f
  {
  }

  // The deepest nesting the table allows below an element, counting what <mixer> opens up in <audiohal>.
  function Height(e: Elem): nat {
    match e
    case Ctl => 0
    case Enable => 0
    case Disable => 0
    case StreamCtl => 0
    case CodecCase => 0
    case Path => 1
    case Case => 1
    case Init => 1
    case CodecProbe => 1
    case Device => 2
    case Usecase => 2
    case Mixer => 2
    case Stream => 3
    case AudioHal => 4
  }

  // The elements whose table entry has an end handler.
  predicate HasEnd(e: Elem) {
    e in {Path, Device, Stream, Case, Usecase, CodecProbe}
  }

  // Elements whose handlers use the mixer, directly or through the objects they hang on.
  predicate NeedsMixer(e: Elem) {
    e !in {Mixer, AudioHal, CodecProbe, CodecCase}
  }

  // The element found first in the table among those currently valid.
  ghost predicate FirstMatch(valid: set<Elem>, name: string, i: nat) {
    && i < |ALL_ELEMS| && ALL_ELEMS[i] in valid && Name(ALL_ELEMS[i]) == name
    && forall j | 0 <= j < i :: !(ALL_ELEMS[j] in valid && Name(ALL_ELEMS[j]) == name)
  }
}

module AudioConfigParser {
  import opened ElementTable

  const MAX_PARSE_DEPTH: nat := 6

  datatype Entry = Entry(elem: Elem, valid: set<Elem>)

  // One handler call: which element, and whether mixer_open had succeeded by then.
  datatype Call = Call(elem: Elem, mixerOpen: bool)

  // What expat reports, with what the handlers will make of it: whether the attributes are accepted, what the
  // handler returns, and, for <mixer>, whether mixer_open succeeds.
  datatype Event =
    | Start(name: string, attribsOk: bool, result: int, opens: bool)
    | End(result: int)

  // Elements open after the events, or -1 if some end has no start: expat never reports such a stream.
  function Depth(events: seq<Event>): int {
    if events == [] then 0
    else
      var d := Depth(events[..|events| - 1]);
      if d < 0 then d else if events[|events| - 1].Start? then d + 1 else d - 1
  }

  ghost predicate WellNested(events: seq<Event>) {
    forall k | 0 <= k <= |events| :: Depth(events[..k]) >= 0
  }

  // An entry at slot k admits only elements that fit above it, and only such as the mixer allows.
  ghost predicate EntryOk(entry: Entry, k: nat, mixerOpen: bool) {
    && (forall e | e in entry.valid :: k + 1 + Height(e) <= 5 && (NeedsMixer(e) ==> mixerOpen))
    && (AudioHal in entry.valid ==> k == 0)
    && (Mixer in entry.valid ==> k == 1)
  }

  // Pushing an admitted element leaves an entry of the same kind one slot up.
  lemma SubEntryOk(entry: Entry, k: nat, mixerOpen: bool, e: Elem)
    requires EntryOk(entry, k, mixerOpen) && e in entry.valid && e != Mixer
    ensures k < 5 && EntryOk(Entry(e, Sub(e)), k + 1, mixerOpen)
  {
  }

  // <mixer> is admitted in slot 1 only; once it is open, what it lets follow still fits.
  lemma MixerEntriesOk(entry: Entry, k: nat, mixerOpen: bool)
    requires EntryOk(entry, k, mixerOpen) && Mixer in entry.valid
    ensures k == 1 && EntryOk(entry.(valid := AFTER_MIXER), k, true) && EntryOk(Entry(Mixer, Sub(Mixer)), k + 1, true)
  {
  }

  const EINVAL: int := 22

  // parse_error after an accepted element.
  function Verdict(e: Elem, attribsOk: bool, result: int, opens: bool): int {
    if !attribsOk then -EINVAL
    else if e == Mixer then (if opens then 0 else -EINVAL)
    else if e == AudioHal then 0          // <audiohal> has no start handler
    else result
  }

  function CallMade(e: Elem, attribsOk: bool, mixerOpen: bool): seq<Call> {
    if attribsOk && e != AudioHal then [Call(e, mixerOpen)] else []
  }

  class ParseState {
    const stack: array<Entry>
    var index: nat
    var parseError: int
    var mixerOpen: bool
    ghost var depth: nat         // XML elements open
    ghost var calls: seq<Call>   // handler calls so far
    ghost var maxIndex: nat      // the deepest stack index ever used

    ghost predicate Valid()
      reads this, stack
    {
      && stack.Length == MAX_PARSE_DEPTH
      && index <= maxIndex <= 5
      && (parseError == 0 ==> index == depth && forall k | 0 <= k <= index :: EntryOk(stack[k], k, mixerOpen))
      && (forall c | c in calls :: NeedsMixer(c.elem) ==> c.mixerOpen)
    }

    constructor ()
      ensures Valid() && fresh(stack) && depth == 0 && parseError == 0 && calls == [] && !mixerOpen
    {
      stack := new Entry[MAX_PARSE_DEPTH](_ => Entry(AudioHal, {}));
      index, parseError, mixerOpen := 0, 0, false;
      depth, calls, maxIndex := 0, [], 0;
      new;
      stack[0] := Entry(AudioHal, {AudioHal});
    }

    // do_parse starts on a (possibly redirected) file.
    method BeginFile()
      requires Valid()
      modifies this`index, this`parseError, this`depth, stack
      ensures Valid() && depth == 0 && parseError == 0
    {
      parseError := 0;
      index := 0;
      depth := 0;
      stack[0] := Entry(AudioHal, {AudioHal});
    }

    static method FindElem(valid: set<Elem>, name: string) returns (i: nat)
      ensures i <= |ALL_ELEMS|
      ensures i < |ALL_ELEMS| ==> FirstMatch(valid, name, i)
      ensures i == |ALL_ELEMS| ==> forall e | e in valid && e in ALL_ELEMS :: Name(e) != name
    {
      i := 0;
      while i < |ALL_ELEMS|
        invariant i <= |ALL_ELEMS|
        invariant forall j | 0 <= j < i :: !(ALL_ELEMS[j] in valid && Name(ALL_ELEMS[j]) == name)
      {
        if ALL_ELEMS[i] in valid && name == Name(ALL_ELEMS[i]) {
          return;
        }
        i := i + 1;
      }
    }

    // The element goes on the stack before its attributes are looked at.
    method Push(e: Elem)
      requires Valid() && parseError == 0 && e in stack[index].valid
      modifies this`index, this`depth, this`maxIndex, stack
      ensures stack.Length == MAX_PARSE_DEPTH && depth == old(depth) + 1
      ensures index <= maxIndex <= 5 && old(maxIndex) <= maxIndex
      ensures old(index) < 5 && index == old(index) + 1
      ensures forall k | 0 <= k < index :: stack[k] == old(stack[k])
      ensures stack[index] == Entry(e, Sub(e))
    {
      assert EntryOk(stack[index], index, mixerOpen);
      index := index + 1;
      stack[index] := Entry(e, Sub(e));
      depth := depth + 1;
      if index > maxIndex {
        maxIndex := index;
      }
    }

    // The handler of a pushed element runs, or its attributes are refused.
    method Handle(e: Elem, attribsOk: bool, result: int, opens: bool)
      requires 1 <= index <= 5 && stack.Length == MAX_PARSE_DEPTH && parseError == 0
      modifies this`parseError, this`mixerOpen, this`calls, stack
      ensures parseError == Verdict(e, attribsOk, result, opens)
      ensures calls == old(calls) + CallMade(e, attribsOk, old(mixerOpen))
      ensures if e == Mixer && parseError == 0
              then mixerOpen && stack[index - 1] == old(stack[index - 1]).(valid := AFTER_MIXER)
              else mixerOpen == old(mixerOpen) && stack[index - 1] == old(stack[index - 1])
      ensures forall k | 0 <= k < stack.Length && k != index - 1 :: stack[k] == old(stack[k])
    {
      if !attribsOk {
        parseError := -EINVAL;
      } else if e != AudioHal {
        calls := calls + [Call(e, mixerOpen)];
        if e == Mixer {
          MixerStart(opens);
        } else {
          parseError := result;
        }
      }
    }

    method Accept(e: Elem, attribsOk: bool, result: int, opens: bool)
      requires Valid() && parseError == 0 && e in stack[index].valid
      modifies this`index, this`parseError, this`mixerOpen, this`depth, this`calls, this`maxIndex, stack
      ensures Valid() && depth == old(depth) + 1
      ensures parseError == Verdict(e, attribsOk, result, opens)
      ensures calls == old(calls) + CallMade(e, attribsOk, old(mixerOpen))
      ensures index == old(index) + 1 && stack[index] == Entry(e, Sub(e))
    {
      assert EntryOk(stack[index], index, mixerOpen);
      if e == Mixer {
        MixerEntriesOk(stack[index], index, mixerOpen);
      } else {
        SubEntryOk(stack[index], index, mixerOpen, e);
      }
      Push(e);
      Handle(e, attribsOk, result, opens);
    }

    // `i` is the table index of the accepted element, or the table size if none was.
    method SectionStart(name: string, attribsOk: bool, result: int, opens: bool) returns (i: nat)
      requires Valid()
      modifies this`index, this`parseError, this`mixerOpen, this`depth, this`calls, this`maxIndex, stack
      ensures Valid() && depth == old(depth) + 1 && i <= |ALL_ELEMS|
      ensures old(parseError) != 0 ==> i == |ALL_ELEMS| && parseError == old(parseError)
      ensures old(parseError) == 0 && i == |ALL_ELEMS| ==>
                parseError == -EINVAL && forall e | e in old(stack[index].valid) && e in ALL_ELEMS :: Name(e) != name
      ensures i < |ALL_ELEMS| ==>
                && old(parseError) == 0 && FirstMatch(old(stack[index].valid), name, i)
                && parseError == Verdict(ALL_ELEMS[i], attribsOk, result, opens)
                && calls == old(calls) + CallMade(ALL_ELEMS[i], attribsOk, old(mixerOpen))
                && index == old(index) + 1 && stack[index] == Entry(ALL_ELEMS[i], Sub(ALL_ELEMS[i]))
      ensures i == |ALL_ELEMS| ==> calls == old(calls) && index == old(index)
    {
      i := |ALL_ELEMS|;
      if parseError != 0 {
        depth := depth + 1;
        return;
      }
      i := FindElem(stack[index].valid, name);
      if i >= |ALL_ELEMS| || index >= MAX_PARSE_DEPTH {
        depth := depth + 1;
        parseError := -EINVAL;
        return;
      }
      Accept(ALL_ELEMS[i], attribsOk, result, opens);
    }

    // parse_mixer_start, on the freshly pushed <mixer> entry
    method MixerStart(opens: bool)
      requires 1 <= index <= 5 && stack.Length == MAX_PARSE_DEPTH && parseError == 0
      modifies this`parseError, this`mixerOpen, stack
      ensures old(mixerOpen) ==> mixerOpen
      ensures parseError == if opens then 0 else -EINVAL
      ensures opens ==> mixerOpen && stack[index - 1] == old(stack[index - 1]).(valid := AFTER_MIXER)
      ensures !opens ==> mixerOpen == old(mixerOpen) && stack[..] == old(stack[..])
      ensures forall k | 0 <= k < stack.Length && k != index - 1 :: stack[k] == old(stack[k])
    {
      if !opens {
        parseError := -EINVAL;
      } else {
        mixerOpen := true;
        stack[index - 1] := stack[index - 1].(valid := AFTER_MIXER);
      }
    }

    method SectionEnd(result: int)
      requires Valid() && depth > 0
      modifies this`index, this`parseError, this`depth
      ensures Valid() && depth == old(depth) - 1
      ensures old(parseError) != 0 ==> parseError == old(parseError) && index == old(index)
      ensures old(parseError) == 0 ==>
                0 <= index == old(index) - 1 && parseError == if HasEnd(stack[index + 1].elem) then result else 0
    {
      depth := depth - 1;
      if parseError != 0 {
        return;
      }
      var e := stack[index].elem;
      if HasEnd(e) {
        parseError := result;
      }
      index := index - 1;
    }

    // One file: whatever the events are, the stack index stays within the array, and every handler that
    // needs the mixer was called with the mixer open.
    method ParseFile(events: seq<Event>)
      requires Valid() && WellNested(events)
      modifies this, stack
      ensures Valid() && maxIndex < MAX_PARSE_DEPTH
      ensures forall c | c in calls && NeedsMixer(c.elem) :: c.mixerOpen
      ensures parseError == 0 ==> index == Depth(events)
    {
      BeginFile();
      var n := 0;
      while n < |events|
        invariant 0 <= n <= |events| && Valid() && depth == Depth(events[..n])
      {
        assert events[..n + 1][..n] == events[..n];
        assert Depth(events[..n + 1]) >= 0;
        match events[n] {
          case Start(name, attribsOk, result, opens) =>
            var i := SectionStart(name, attribsOk, result, opens);
          case End(result) => SectionEnd(result);
        }
        n := n + 1;
      }
      assert events[..n] == events;
    }
  }
}
