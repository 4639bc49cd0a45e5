/**
 Agreement on the state key: processes that create or read one key file or one keychain item, in any
 interleaving and with crashes anywhere, all return the same key.
 */
module KeyText {
  import opened Prelude
  import opened Text
  import opened Base64

  type Key = bytes: seq<Byte> | |bytes| == 32 witness seq(32, _ => 0)

  function Strip(s: string): string {
    if s != "" && IsSpace(s[0]) then Strip(s[1..])
    else if s != "" && IsSpace(s[|s|-1]) then Strip(s[..|s|-1])
    else s
  }

  /** Invalid base64 and a wrong length are both refusals. */
  function DecodeKey(text: string): Option<Key> {
    var key := Decode(Strip(text));
    if key.Some? && |key.value| == 32 then Some(key.value) else None
  }

  /** What the creator of the key file writes. */
  function FileText(key: Key): string {
    Encode(key) + "\n"
  }

  lemma {:induction false} StripKeeps(key: Key, k: nat)
    requires k <= |Encode(key)|
    ensures Strip(Encode(key)[..k]) == Encode(key)[..k]
  {
    NoSpaceInside(key);
  }

  lemma WholeFile(key: Key)
    ensures DecodeKey(FileText(key)) == Some(key)
  {
    var text, encoded := FileText(key), Encode(key);
    EncodedLength(key);
    NoSpaceInside(key);
    assert text[..|text|-1] == encoded && text[0] == encoded[0] && !IsSpace(text[0]);
    StripKeeps(key, |encoded|);
    assert encoded[..|encoded|] == encoded;
    assert Strip(text) == Strip(encoded) == encoded;
    RoundTrip(key);
  }

  lemma ShortText(s: string)
    requires |s| < 44 && Decode(s).Some?
    ensures |Decode(s).value| < 32
  {
    DecodedLength(s);
  }

  lemma KeyLength(key: Key)
    ensures |Encode(key)| == 44
  {
    EncodedLength(key);
  }

  lemma PartEncoding(key: Key, k: nat, part: string)
    requires k < |Encode(key)| && part == Encode(key)[..k]
    ensures DecodeKey(part) == None
  {
    KeyLength(key);
    StripKeeps(key, k);
    if Decode(part).Some? {
      ShortText(part);
    }
  }

  lemma WholeEncoding(key: Key)
    ensures DecodeKey(Encode(key)) == Some(key)
  {
    StripKeeps(key, |Encode(key)|);
    assert Encode(key)[..|Encode(key)|] == Encode(key);
    RoundTrip(key);
  }

  /**
   However much of the key file has been written, reading it gives the whole key or an error: a proper
   prefix of the encoding is too short for 32 bytes.
   */
  lemma {:induction false} PartialFile(key: Key, k: nat)
    requires k <= |FileText(key)|
    ensures DecodeKey(FileText(key)[..k]) == if k < |Encode(key)| then None else Some(key)
  {
    var text, encoded := FileText(key), Encode(key);
    if k <= |encoded| {
      assert text[..k] == encoded[..k];
      if k < |encoded| {
        PartEncoding(key, k, encoded[..k]);
      } else {
        assert encoded[..k] == encoded;
        WholeEncoding(key);
      }
    } else {
      assert text[..k] == text;
      WholeFile(key);
    }
  }
}

/** One key file under the home directory: created exclusively, written in pieces, read by whoever comes later. */
module KeyFile {
  import opened Prelude
  import opened KeyText
  import Base64

  datatype Pc =
    | Called
    | Absent(candidate: Key)            // no file was seen; a random key was drawn
    | Writing(key: Key, written: nat)   // this process has created the file
    | Present
    | Done

  datatype State = State(file: Option<string>, procs: map<nat, Pc>, returned: seq<Key>)

  datatype Event =
    | Call(p: nat)
    | Advance(p: nat, candidate: Key, count: nat)   // `count` bounds what one read or write transfers
    | Raise(p: nat)
    | Crash(p: nat)

  function At(s: State, p: nat, pc: Pc): State {
    s.(procs := s.procs[p := pc])
  }

  function Min(a: nat, b: nat): nat { if a < b then a else b }

  /** A reader that is not atomic sees some prefix of the file, which only ever grows. */
  function Read(s: State, p: nat, count: nat): State
    requires s.file.Some?
  {
    var key := DecodeKey(s.file.value[..Min(count, |s.file.value|)]);
    if key.Some? then At(s, p, Done).(returned := s.returned + [key.value]) else At(s, p, Done)
  }

  function AdvanceProcess(s: State, p: nat, candidate: Key, count: nat): State
    requires p in s.procs
  {
    match s.procs[p]
    case Called => At(s, p, if s.file.Some? then Present else Absent(candidate))
    case Absent(key) => if s.file.Some? then At(s, p, Present) else At(s, p, Writing(key, 0)).(file := Some(""))
    case Writing(key, written) =>
      var text := FileText(key);
      if written >= |text| then At(s, p, Done).(returned := s.returned + [key])
      else
        var upTo := Min(written + count, |text|);
        var content := if s.file.Some? then s.file.value else "";
        At(s, p, Writing(key, upTo)).(file := Some(content + text[written..upTo]))
    case Present => if s.file.Some? then Read(s, p, count) else At(s, p, Done)
    case Done => s
  }

  function Step(s: State, e: Event): State {
    match e
    case Call(p) => if p in s.procs then s else At(s, p, Called)
    case Advance(p, candidate, count) => if p in s.procs then AdvanceProcess(s, p, candidate, count) else s
    case Raise(p) => if p in s.procs then At(s, p, Done) else s
    case Crash(p) => s.(procs := s.procs - {p})
  }

  function Run(s: State, events: seq<Event>): State {
    if events == [] then s else Step(Run(s, events[..|events|-1]), events[|events|-1])
  }

  const START := State(None, map[], [])

  /** The file belongs to `key`: its content is a prefix of that key's text, and only its creator still adds to it. */
  ghost predicate Owned(s: State, key: Key) {
    && (s.file.Some? ==> s.file.value <= FileText(key))
    && (forall i :: 0 <= i < |s.returned| ==> s.returned[i] == key)
    && (|s.returned| > 0 ==> s.file.Some? && |s.file.value| >= |Base64.Encode(key)|)
    && (forall p :: p in s.procs && s.procs[p].Writing? ==>
          s.file.Some? && s.procs[p].key == key && s.procs[p].written == |s.file.value|)
    && (forall p, q :: p in s.procs && q in s.procs && s.procs[p].Writing? && s.procs[q].Writing? ==> p == q)
  }

  ghost predicate Inv(s: State) {
    && (s.file.None? ==> s.returned == [] && forall p :: p in s.procs ==> !s.procs[p].Writing?)
    && exists key :: Owned(s, key)
  }

  lemma StepKeepsOwner(s: State, e: Event, key: Key)
    requires s.file.Some? && Owned(s, key)
    ensures Step(s, e).file.Some? && s.file.value <= Step(s, e).file.value && Owned(Step(s, e), key)
  {
    if e.Advance? && e.p in s.procs && s.procs[e.p].Writing? {
      WriteKeepsOwner(s, e, key);
    } else if e.Advance? && e.p in s.procs && s.procs[e.p].Present? {
      ReadKeepsOwner(s, e, key);
    }
  }

  lemma WriteKeepsOwner(s: State, e: Event, key: Key)
    requires s.file.Some? && Owned(s, key) && e.Advance? && e.p in s.procs && s.procs[e.p].Writing?
    ensures Step(s, e).file.Some? && s.file.value <= Step(s, e).file.value && Owned(Step(s, e), key)
  {
    var text, written := FileText(key), s.procs[e.p].written;
    if written < |text| {
      var upTo := Min(written + e.count, |text|);
      assert text[..written] + text[written..upTo] == text[..upTo];
    }
  }

  lemma ReadKeepsOwner(s: State, e: Event, key: Key)
    requires s.file.Some? && Owned(s, key) && e.Advance? && e.p in s.procs && s.procs[e.p].Present?
    ensures Step(s, e).file == s.file && Owned(Step(s, e), key)
  {
    var count := Min(e.count, |s.file.value|);
    PartialFile(key, count);
    assert s.file.value[..count] == FileText(key)[..count];
    assert Step(s, e).returned == s.returned || Step(s, e).returned == s.returned + [key];
  }

  lemma StepKeepsInv(s: State, e: Event)
    requires Inv(s)
    ensures Inv(Step(s, e))
  {
    var key :| Owned(s, key);
    if s.file.Some? {
      StepKeepsOwner(s, e, key);
    } else if e.Advance? && e.p in s.procs && s.procs[e.p].Absent? {
      assert Owned(Step(s, e), s.procs[e.p].candidate);
    } else {
      assert Owned(Step(s, e), key);
    }
  }

  lemma {:induction false} RunKeepsInv(events: seq<Event>)
    ensures Inv(Run(START, events))
  {
    if events != [] {
      RunKeepsInv(events[..|events|-1]);
      StepKeepsInv(Run(START, events[..|events|-1]), events[|events|-1]);
    } else {
      assert Owned(START, seq(32, _ => 0));
    }
  }

  /** All keys ever returned agree, and the file holds them. */
  lemma ReturnedKeysAgree(events: seq<Event>)
    ensures var s := Run(START, events);
      forall i, j :: 0 <= i < |s.returned| && 0 <= j < |s.returned| ==>
        s.returned[i] == s.returned[j] && s.file.Some? && DecodeKey(s.file.value) == Some(s.returned[i])
  {
    RunKeepsInv(events);
    var s := Run(START, events);
    if |s.returned| > 0 {
      var key :| Owned(s, key);
      PartialFile(key, |s.file.value|);
      assert FileText(key)[..|s.file.value|] == s.file.value;
    }
  }

  /** A creator that dies before the encoding is complete leaves a file that no later call can use or repair. */
  lemma {:induction false} HalfWrittenFileStays(s: State, key: Key, events: seq<Event>)
    requires Owned(s, key) && s.file.Some? && |s.file.value| < |Base64.Encode(key)|
    requires forall p :: p in s.procs ==> !s.procs[p].Writing?
    ensures Run(s, events).file == s.file && Run(s, events).returned == []
    ensures Owned(Run(s, events), key) && forall p :: p in Run(s, events).procs ==> !Run(s, events).procs[p].Writing?
  {
    if events != [] {
      var before, e := Run(s, events[..|events|-1]), events[|events|-1];
      HalfWrittenFileStays(s, key, events[..|events|-1]);
      StepKeepsOwner(before, e, key);
    }
  }

  /** Some process number that is not in use. */
  lemma {:induction false} FreshProcess(used: set<nat>) returns (p: nat)
    ensures p !in used && forall q :: q in used ==> q < p
  {
    if used == {} {
      p := 0;
    } else {
      var q :| q in used;
      var r := FreshProcess(used - {q});
      p := if q < r then r else q + 1;
      assert forall x :: x in used ==> x == q || x in used - {q};
    }
  }

  /** A newcomer that reads the whole file returns its key. */
  lemma NewcomerReads(s: State, key: Key, p: nat) returns (events: seq<Event>)
    requires Owned(s, key) && s.file.Some? && |s.file.value| >= |Base64.Encode(key)| && p !in s.procs
    ensures Run(s, events).returned == s.returned + [key]
  {
    var n := |s.file.value|;
    var called := At(s, p, Called);
    var looked := At(called, p, Present);
    events := [Call(p), Advance(p, key, 0), Advance(p, key, n)];
    RunThree(s, Call(p), Advance(p, key, 0), Advance(p, key, n));
    assert Step(s, Call(p)) == called && Step(called, Advance(p, key, 0)) == looked;
    WholeRead(looked, key, p);
  }

  lemma RunThree(s: State, a: Event, b: Event, c: Event)
    ensures Run(s, [a, b, c]) == Step(Step(Step(s, a), b), c)
  {
    var events := [a, b, c];
    assert events[..2] == [a, b] && [a, b][..1] == [a] && [a][..0] == [];
    assert Run(s, [a]) == Step(s, a);
    assert Run(s, [a, b]) == Step(Run(s, [a]), b);
  }

  lemma WholeRead(s: State, key: Key, p: nat)
    requires s.file.Some? && |Base64.Encode(key)| <= |s.file.value| && s.file.value <= FileText(key)
    requires p in s.procs && s.procs[p] == Present
    ensures Step(s, Advance(p, key, |s.file.value|)).returned == s.returned + [key]
  {
    var n := |s.file.value|;
    PartialFile(key, n);
    assert s.file.value[..n] == FileText(key)[..n];
  }

  /**
   With no creator at work, some continuation returns another key exactly when the file holds the whole
   encoding; otherwise none ever does.
   */
  lemma UsableExactlyWhenWhole(s: State, key: Key)
    requires Owned(s, key) && s.file.Some? && forall p :: p in s.procs ==> !s.procs[p].Writing?
    ensures (exists events :: |Run(s, events).returned| > |s.returned|) <==> |s.file.value| >= |Base64.Encode(key)|
  {
    if |s.file.value| >= |Base64.Encode(key)| {
      var p := FreshProcess(s.procs.Keys);
      var events := NewcomerReads(s, key, p);
    } else {
      forall events
        ensures Run(s, events).returned == []
      {
        HalfWrittenFileStays(s, key, events);
      }
    }
  }
}

/** One keychain item: looked up, added without overwriting, and looked up again. */
module Keychain {
  import opened Prelude
  import opened KeyText
  import Base64

  datatype Pc = Called | Missing(candidate: Key) | Added(candidate: Key, reported: bool) | Done

  /** `changed`: the item was found replaced between a successful add and the second lookup. */
  datatype State = State(item: Option<string>, procs: map<nat, Pc>, returned: seq<Key>, changed: bool)

  /** `works`: the command has its effect; `reported`: it says so. */
  datatype Event =
    | Call(p: nat)
    | Advance(p: nat, candidate: Key, works: bool, reported: bool)
    | Crash(p: nat)

  function At(s: State, p: nat, pc: Pc): State {
    s.(procs := s.procs[p := pc])
  }

  /** The key of a present item; an invalid one is refused, never replaced. */
  function Found(item: string): Option<Key> {
    DecodeKey(item + "\n")
  }

  function Return(s: State, p: nat, key: Key): State {
    At(s, p, Done).(returned := s.returned + [key])
  }

  function AdvanceProcess(s: State, p: nat, candidate: Key, works: bool, reported: bool): State
    requires p in s.procs
  {
    match s.procs[p]
    case Called =>
      if !works then At(s, p, Done)
      else if s.item.None? then At(s, p, Missing(candidate))
      else if Found(s.item.value).Some? then Return(s, p, Found(s.item.value).value)
      else At(s, p, Done)
    case Missing(key) =>
      if works && s.item.None? then At(s, p, Added(key, reported)).(item := Some(Base64.Encode(key)))
      else At(s, p, Added(key, false))
    case Added(key, reported) =>
      if !works || s.item.None? || Found(s.item.value).None? then At(s, p, Done)
      else if reported && Found(s.item.value).value != key then At(s, p, Done).(changed := true)
      else Return(s, p, Found(s.item.value).value)
    case Done => s
  }

  function Step(s: State, e: Event): State {
    match e
    case Call(p) => if p in s.procs then s else At(s, p, Called)
    case Advance(p, candidate, works, reported) =>
      if p in s.procs then AdvanceProcess(s, p, candidate, works, reported) else s
    case Crash(p) => s.(procs := s.procs - {p})
  }

  function Run(item: Option<string>, events: seq<Event>): State {
    if events == [] then State(item, map[], [], false)
    else Step(Run(item, events[..|events|-1]), events[|events|-1])
  }

  ghost predicate Inv(s: State) {
    && (forall i :: 0 <= i < |s.returned| ==> s.item.Some? && Found(s.item.value) == Some(s.returned[i]))
    && (forall p :: p in s.procs && s.procs[p].Added? && s.procs[p].reported ==>
          s.item.Some? && Found(s.item.value) == Some(s.procs[p].candidate))
    && !s.changed
  }

  lemma StepKeepsInv(s: State, e: Event)
    requires Inv(s)
    ensures Inv(Step(s, e)) && (s.item.Some? ==> Step(s, e).item == s.item)
  {
    var s' := Step(s, e);
    if |s.returned| > 0 {
      var first := s.returned[0];
      assert s.item.Some?;
    }
    assert s'.returned == s.returned || s'.returned == s.returned + [s'.returned[|s.returned|]];
    if e.Advance? && e.p in s.procs && s.procs[e.p].Missing? {
      var key := s.procs[e.p].candidate;
      PartialFile(key, |FileText(key)|);
      assert FileText(key)[..|FileText(key)|] == FileText(key);
    }
  }

  /** Whatever item is there at first: all returned keys agree with it, and it is never seen changed. */
  lemma {:induction false} ReturnedKeysAgree(item: Option<string>, events: seq<Event>)
    ensures Inv(Run(item, events)) && (item.Some? ==> Run(item, events).item == item)
    ensures var s := Run(item, events);
      forall i, j :: 0 <= i < |s.returned| && 0 <= j < |s.returned| ==> s.returned[i] == s.returned[j]
  {
    if events != [] {
      ReturnedKeysAgree(item, events[..|events|-1]);
      StepKeepsInv(Run(item, events[..|events|-1]), events[|events|-1]);
    }
  }
}

/** One process's way to its key: environment, cache, keychain, key file. */
module StateKey {
  import opened Prelude
  import opened KeyText
  import Keychain
  import Base64

  datatype KeyError = InvalidKey | LookupFailed | CreateFailed | ChangedDuringInit

  function Checked(key: Option<Key>): Result<Key, KeyError> {
    if key.Some? then Ok(key.value) else Err(InvalidKey)
  }

  class KeyHost {
    const hasKeychain: bool
    var file: Option<string>
    var item: Option<string>
    var cache: Option<Key>

    constructor (hasKeychain: bool, file: Option<string>, item: Option<string>)
      ensures this.hasKeychain == hasKeychain && this.file == file && this.item == item && cache == None
    {
      this.hasKeychain, this.file, this.item := hasKeychain, file, item;
      cache := None;
    }

    /** A successful lookup of an invalid item is an error, not a missing item. */
    method FindKey(works: bool) returns (r: Result<Option<Key>, KeyError>)
      ensures !works ==> r == Err(LookupFailed)
      ensures works && item.None? ==> r == Ok(None)
      ensures works && item.Some? ==>
        r == if Keychain.Found(item.value).Some? then Ok(Keychain.Found(item.value)) else Err(InvalidKey)
    {
      if !works {
        return Err(LookupFailed);
      }
      if item.None? {
        return Ok(None);
      }
      var key := Keychain.Found(item.value);
      return if key.Some? then Ok(key) else Err(InvalidKey);
    }

    /** Undisturbed: the item's key, or the candidate once it has been added. */
    method KeychainKey(candidate: Key, works: bool, adds: bool, worksAgain: bool) returns (r: Result<Key, KeyError>)
      modifies this`item
      ensures old(item).Some? ==> item == old(item)
      ensures r.Ok? <==>
        works && (if old(item).Some? then Keychain.Found(old(item).value).Some? else adds && worksAgain)
      ensures r.Ok? ==> item.Some? && Keychain.Found(item.value) == Some(r.value)
      ensures r != Err(ChangedDuringInit)
    {
      var existing := FindKey(works);
      if existing.Err? {
        return Err(existing.error);
      }
      if existing.value.Some? {
        return Ok(existing.value.value);
      }
      if adds {
        item := Some(Base64.Encode(candidate));
        PartialFile(candidate, |FileText(candidate)|);
        assert FileText(candidate)[..|FileText(candidate)|] == FileText(candidate);
      }
      var winner := FindKey(worksAgain);
      if winner.Err? {
        return Err(winner.error);
      }
      if winner.value.None? {
        return Err(CreateFailed);
      }
      if adds && winner.value.value != candidate {
        return Err(ChangedDuringInit);
      }
      return Ok(winner.value.value);
    }

    method FileKey(candidate: Key) returns (r: Result<Key, KeyError>)
      modifies this`file
      ensures old(file).Some? ==> file == old(file) && r == Checked(DecodeKey(file.value))
      ensures old(file).None? ==> r == Ok(candidate)
      ensures r.Ok? ==> file.Some? && DecodeKey(file.value) == Some(r.value)
    {
      if file.Some? {
        return Checked(DecodeKey(file.value));
      }
      file := Some(FileText(candidate));
      PartialFile(candidate, |FileText(candidate)|);
      assert FileText(candidate)[..|FileText(candidate)|] == FileText(candidate);
      return Ok(candidate);
    }

    /** The environment wins without touching the cache; otherwise the first key found is kept for good. */
    method StateKey(env: string, candidate: Key, works: bool, adds: bool, worksAgain: bool)
      returns (r: Result<Key, KeyError>)
      modifies this
      ensures Strip(env) != "" ==>
        r == Checked(DecodeKey(Strip(env))) && cache == old(cache) && file == old(file) && item == old(item)
      ensures Strip(env) == "" ==> cache == if r.Ok? then Some(r.value) else old(cache)
      ensures Strip(env) == "" && old(cache).Some? ==>
        r == Ok(old(cache).value) && file == old(file) && item == old(item)
      ensures Strip(env) == "" && old(cache).None? && r.Ok? ==>
                if hasKeychain then file == old(file) && item.Some? && Keychain.Found(item.value) == Some(r.value)
                else item == old(item) && file.Some? && DecodeKey(file.value) == Some(r.value)
    {
      if Strip(env) != "" {
        return Checked(DecodeKey(Strip(env)));
      }
      if cache.None? {
        if hasKeychain {
          r := KeychainKey(candidate, works, adds, worksAgain);
        } else {
          r := FileKey(candidate);
        }
        if r.Err? {
          return;
        }
        cache := Some(r.value);
      }
      return Ok(cache.value);
    }
  }
}
