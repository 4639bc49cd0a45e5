/** A process that is left alone gets its key, from the key file or from the keychain. */
module KeyFileProgress {
  import opened Prelude
  import opened KeyText
  import opened KeyFile
  import Base64

  lemma Further(s: State, events: seq<Event>, e: Event)
    ensures Run(s, events + [e]) == Step(Run(s, events), e)
  {
    assert (events + [e])[..|events + [e]|-1] == events;
  }

  /** The first process draws a key, creates the file with it and returns it; the file is the key's whole text. */
  lemma FirstCreates(s: State, p: nat, key: Key, other: Key) returns (events: seq<Event>)
    requires s.file.None? && p !in s.procs
    ensures forall e :: e in events ==> (e.Call? || e.Advance?) && e.p == p
    ensures var now := Run(s, events);
      && now.file == Some(FileText(key)) && now.returned == s.returned + [key]
      && now.procs == s.procs[p := Done]
  {
    var text := FileText(key);
    var drawn := Advance(p, key, 0);
    var write := Advance(p, other, |text|);
    events := [] + [Call(p)];
    Further(s, [], Call(p));
    var s1 := At(s, p, Called);
    assert Run(s, events) == s1;
    Further(s, events, drawn);
    events := events + [drawn];
    var s2 := At(s1, p, Absent(key));
    assert Run(s, events) == s2;
    Further(s, events, write);
    events := events + [write];
    var s3 := At(s2, p, Writing(key, 0)).(file := Some(""));
    assert Run(s, events) == s3;
    events := Writes(s, s3, events, p, key, write);
  }

  lemma Writes(s: State, s3: State, before: seq<Event>, p: nat, key: Key, write: Event) returns (events: seq<Event>)
    requires Run(s, before) == s3 && p in s3.procs && s3.procs[p] == Writing(key, 0) && s3.file == Some("")
    requires write.Advance? && write.p == p && write.count == |FileText(key)|
    requires forall e :: e in before ==> (e.Call? || e.Advance?) && e.p == p
    ensures forall e :: e in events ==> (e.Call? || e.Advance?) && e.p == p
    ensures Run(s, events) == At(s3, p, Done).(file := Some(FileText(key)), returned := s3.returned + [key])
  {
    var s4 := At(s3, p, Writing(key, |FileText(key)|)).(file := Some(FileText(key)));
    Further(s, before, write);
    WritesAll(s3, p, key, write);
    var longer := before + [write];
    Further(s, longer, write);
    WritesNothing(s4, p, key, write);
    events := longer + [write];
  }

  lemma WritesAll(s: State, p: nat, key: Key, write: Event)
    requires p in s.procs && s.procs[p] == Writing(key, 0) && s.file == Some("")
    requires write.Advance? && write.p == p && write.count == |FileText(key)|
    ensures Step(s, write) == At(s, p, Writing(key, |FileText(key)|)).(file := Some(FileText(key)))
  {
    var text := FileText(key);
    KeyLength(key);
    assert |text| > 0 && "" + text[0..|text|] == text;
  }

  lemma WritesNothing(s: State, p: nat, key: Key, write: Event)
    requires p in s.procs && s.procs[p] == Writing(key, |FileText(key)|)
    requires write.Advance? && write.p == p
    ensures Step(s, write) == At(s, p, Done).(returned := s.returned + [key])
  {
  }

  /** The file's text: the encoded key and the end of the line. */
  lemma TextOfFile(key: Key)
    ensures FileText(key) == Base64.Encode(key) + "\n"
  {
  }
}

module KeychainProgress {
  import opened Prelude
  import opened KeyText
  import opened Keychain
  import Base64

  lemma Further(item: Option<string>, events: seq<Event>, e: Event)
    ensures Run(item, events + [e]) == Step(Run(item, events), e)
  {
    assert (events + [e])[..|events + [e]|-1] == events;
  }

  lemma WholeItem(key: Key)
    ensures Found(Base64.Encode(key)) == Some(key)
  {
    PartialFile(key, |FileText(key)|);
    assert FileText(key)[..|FileText(key)|] == FileText(key);
  }

  /** After any run without an item, a fresh process adds its key and returns it. */
  lemma MissingIsAdded(item: Option<string>, events: seq<Event>, p: nat, key: Key)
    requires Run(item, events).item.None? && p !in Run(item, events).procs
    ensures var s, go := Run(item, events), Advance(p, key, true, true);
      var now := Run(item, events + [Call(p)] + [go] + [go] + [go]);
      now.item == Some(Base64.Encode(key)) && now.returned == s.returned + [key] && !now.changed
  {
    var s, go := Run(item, events), Advance(p, key, true, true);
    ReturnedKeysAgree(item, events);
    WholeItem(key);
    Further(item, events, Call(p));
    Further(item, events + [Call(p)], go);
    Further(item, events + [Call(p)] + [go], go);
    Further(item, events + [Call(p)] + [go] + [go], go);
    var s1 := At(s, p, Called);
    var s2 := At(s1, p, Missing(key));
    var s3 := At(s2, p, Added(key, true)).(item := Some(Base64.Encode(key)));
    assert Step(s, Call(p)) == s1;
    assert Step(s1, go) == s2;
    assert Step(s2, go) == s3;
    Reread(s3, p, key, go);
  }

  lemma Reread(s: State, p: nat, key: Key, go: Event)
    requires p in s.procs && s.procs[p] == Added(key, true) && s.item.Some? && Found(s.item.value) == Some(key)
    requires go.Advance? && go.p == p && go.works
    ensures Step(s, go) == At(s, p, Done).(returned := s.returned + [key])
  {
  }

  /** With a whole encoding as the item, a fresh process returns its key at once. */
  lemma PresentIsReturned(item: Option<string>, events: seq<Event>, p: nat, key: Key, other: Key)
    requires Run(item, events).item == Some(Base64.Encode(key)) && p !in Run(item, events).procs
    ensures var s := Run(item, events);
      var now := Run(item, events + [Call(p)] + [Advance(p, other, true, true)]);
      now.item == s.item && now.returned == s.returned + [key]
  {
    var s, go := Run(item, events), Advance(p, other, true, true);
    WholeItem(key);
    Further(item, events, Call(p));
    Further(item, events + [Call(p)], go);
    assert Step(s, Call(p)) == At(s, p, Called);
  }
}
