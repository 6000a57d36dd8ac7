/** The two summaries of a room: chips with a glyph and a number, and a line of text. */
module RoomSummary {
  import opened Util
  import opened Text
  import opened Capability

  /** What the summaries look at of a device's state. */
  datatype State = State(
    brightnessOn: Option<bool>, colorOn: Option<bool>, onoffOn: Option<bool>, fanOn: Option<bool>,
    position: Option<real>, mode: Option<string>, playback: Option<string>)
  datatype Device = Device(caps: seq<Kind>, state: State)

  datatype ChipKind = Light | Climate | Player | Fans | Switch | Cover
  datatype Chip = Chip(kind: ChipKind, caption: string)

  function Round(x: real): int { (x + 0.5).Floor }

  function OrElse(a: Option<bool>, b: Option<bool>): Option<bool> { if a.Some? then a else b }

  function LightOn(s: State): bool { OrElse(s.brightnessOn, OrElse(s.colorOn, s.onoffOn)).GetOr(false) }

  predicate IsActiveMode(m: string) { m != "" && m != "off" }
  predicate IsActivePlayback(p: string) { p == "playing" || p == "paused" }

  // ---- the two loops ----

  method RoomChips(devices: seq<Device>) returns (chips: seq<Chip>)
    ensures chips == ChipsOf(devices)
  {
    var lights, climate, media, fans, switches := 0, 0, 0, 0, 0;
    var coversOpen: seq<nat> := [];
    for i := 0 to |devices|
      invariant Counted(devices[..i], lights, climate, media, fans, switches, coversOpen)
    {
      var d, st := devices[i], devices[i].state;
      Snoc(devices, i);
      if Position in d.caps {
        var p := Round(st.position.GetOr(0.0));
        if p > 0 { coversOpen := coversOpen + [p]; }
        continue;
      }
      if Brightness in d.caps || Color in d.caps { if LightOn(st) { lights := lights + 1; } continue; }
      if Temperature in d.caps { if IsActiveMode(st.mode.GetOr("")) { climate := climate + 1; } continue; }
      if Media in d.caps { if IsActivePlayback(st.playback.GetOr("")) { media := media + 1; } continue; }
      if Fan in d.caps { if st.fanOn.GetOr(false) { fans := fans + 1; } continue; }
      if OnOff in d.caps { if st.onoffOn.GetOr(false) { switches := switches + 1; } continue; }
    }
    assert devices[..|devices|] == devices;
    chips := ShowChips(devices, lights, climate, media, fans, switches, coversOpen);
  }

  method ShowChips(ghost devices: seq<Device>, lights: nat, climate: nat, media: nat, fans: nat, switches: nat, open: seq<nat>)
      returns (chips: seq<Chip>)
    requires Counted(devices, lights, climate, media, fans, switches, open)
    ensures chips == ChipsOf(devices)
  {
    ghost var n: nat;
    chips, n := ShowCounts(devices, lights, climate, media, fans, switches);
    chips, n := Show(devices, n, chips, Cover, |open|, if |open| == 1 then Decimal(open[0]) + "%" else Decimal(|open|));
  }

  method ShowCounts(ghost devices: seq<Device>, lights: nat, climate: nat, media: nat, fans: nat, switches: nat)
      returns (chips: seq<Chip>, ghost n: nat)
    requires lights == |Of(devices, Light)| && climate == |Of(devices, Climate)| && media == |Of(devices, Player)|
    requires fans == |Of(devices, Fans)| && switches == |Of(devices, Switch)|
    ensures n == 5 && chips == ChipsFrom(devices, n)
  {
    chips, n := [], 0;
    chips, n := ShowCount(devices, n, chips, Light, lights);
    chips, n := ShowCount(devices, n, chips, Climate, climate);
    chips, n := ShowCount(devices, n, chips, Player, media);
    chips, n := ShowCount(devices, n, chips, Fans, fans);
    chips, n := ShowCount(devices, n, chips, Switch, switches);
  }

  method ShowCount(ghost devices: seq<Device>, ghost n: nat, chips: seq<Chip>, k: ChipKind, count: nat)
      returns (next: seq<Chip>, ghost m: nat)
    requires n < |Kinds| && k == Kinds[n] && k != Cover && chips == ChipsFrom(devices, n) && count == |Of(devices, k)|
    ensures m == n + 1 && next == ChipsFrom(devices, m)
  {
    next, m := Show(devices, n, chips, k, count, Decimal(count));
  }

  /** Adds a chip for the next category if anything was counted in it. */
  method Show(ghost devices: seq<Device>, ghost n: nat, chips: seq<Chip>, k: ChipKind, count: nat, caption: string)
      returns (next: seq<Chip>, ghost m: nat)
    requires n < |Kinds| && k == Kinds[n] && chips == ChipsFrom(devices, n) && count == |Of(devices, k)|
    requires count > 0 ==> Label(devices, k) == caption
    ensures m == n + 1 && next == ChipsFrom(devices, m)
  {
    m := n + 1;
    next := if count > 0 then chips + [Chip(k, caption)] else chips;
  }

  method SummarizeRoom(devices: seq<Device>) returns (text: string)
    ensures text == Join(PartsOf(devices))
  {
    var lights, climate, media, fans, switches := 0, 0, 0, 0, 0;
    var coversOpen: seq<nat> := [];
    for i := 0 to |devices|
      invariant Counted(devices[..i], lights, climate, media, fans, switches, coversOpen)
    {
      var d, st := devices[i], devices[i].state;
      Snoc(devices, i);
      if Position in d.caps {
        var p := Round(st.position.GetOr(0.0));
        if p > 0 { coversOpen := coversOpen + [p]; }
      } else if Brightness in d.caps || Color in d.caps {
        if LightOn(st) { lights := lights + 1; }
      } else if Temperature in d.caps {
        if IsActiveMode(st.mode.GetOr("")) { climate := climate + 1; }
      } else if Media in d.caps {
        if IsActivePlayback(st.playback.GetOr("")) { media := media + 1; }
      } else if Fan in d.caps {
        if st.fanOn.GetOr(false) { fans := fans + 1; }
      } else if OnOff in d.caps {
        if st.onoffOn.GetOr(false) { switches := switches + 1; }
      }
    }
    assert devices[..|devices|] == devices;
    var parts := ShowParts(devices, lights, climate, media, fans, switches, coversOpen);
    text := Join(parts);
  }

  method ShowParts(ghost devices: seq<Device>, lights: nat, climate: nat, media: nat, fans: nat, switches: nat, open: seq<nat>)
      returns (parts: seq<string>)
    requires Counted(devices, lights, climate, media, fans, switches, open)
    ensures parts == PartsOf(devices)
  {
    ghost var n: nat;
    parts, n := SayCounts(devices, lights, climate, media, fans, switches);
    PhraseOfBlinds(devices, open);
    parts, n := Say(devices, n, parts, Cover, |open|, Blinds(open));
  }

  method SayCounts(ghost devices: seq<Device>, lights: nat, climate: nat, media: nat, fans: nat, switches: nat)
      returns (parts: seq<string>, ghost n: nat)
    requires lights == |Of(devices, Light)| && climate == |Of(devices, Climate)| && media == |Of(devices, Player)|
    requires fans == |Of(devices, Fans)| && switches == |Of(devices, Switch)|
    ensures n == 5 && parts == Said(devices, n)
  {
    PhraseOfLabel(devices);
    parts, n := [], 0;
    parts, n := Say(devices, n, parts, Light, lights, Plural(lights, "light"));
    parts, n := Say(devices, n, parts, Climate, climate, Decimal(climate) + " climate");
    parts, n := Say(devices, n, parts, Player, media, Plural(media, "player"));
    parts, n := Say(devices, n, parts, Fans, fans, Plural(fans, "fan"));
    parts, n := Say(devices, n, parts, Switch, switches, Plural(switches, "switch"));
  }

  function Blinds(open: seq<nat>): string {
    if |open| == 1 then "blinds " + Decimal(open[0]) + "%" else Decimal(|open|) + " blinds open"
  }

  /** Adds a part for the next category if anything was counted in it. */
  method Say(ghost devices: seq<Device>, ghost n: nat, parts: seq<string>, ghost k: ChipKind, count: nat, phrase: string)
      returns (next: seq<string>, ghost m: nat)
    requires n < |Kinds| && k == Kinds[n] && parts == Said(devices, n) && count == |Of(devices, k)|
    requires count > 0 ==> Phrase(Chip(k, Label(devices, k))) == phrase
    ensures m == n + 1 && next == Said(devices, m)
  {
    m := n + 1;
    next := if count > 0 then parts + [phrase] else parts;
  }

  function PluralWord(word: string): string { if word == "switch" then "switches" else word + "s" }

  function Plural(n: nat, word: string): string {
    Decimal(n) + " " + if n == 1 then word else PluralWord(word)
  }

  const Dot := " \U{00B7} "

  function Join(parts: seq<string>): string {
    if parts == [] then "" else if |parts| == 1 then parts[0] else parts[0] + Dot + Join(parts[1..])
  }

  // ---- what they count ----

  /** The one category a device falls into, if it falls into any. */
  function Category(d: Device): Option<ChipKind> {
    if Position in d.caps then Some(Cover)
    else if Brightness in d.caps || Color in d.caps then Some(Light)
    else if Temperature in d.caps then Some(Climate)
    else if Media in d.caps then Some(Player)
    else if Fan in d.caps then Some(Fans)
    else if OnOff in d.caps then Some(Switch)
    else None
  }

  predicate Active(d: Device) {
    match Category(d)
    case Some(Cover) => Round(d.state.position.GetOr(0.0)) > 0
    case Some(Light) => LightOn(d.state)
    case Some(Climate) => IsActiveMode(d.state.mode.GetOr(""))
    case Some(Player) => IsActivePlayback(d.state.playback.GetOr(""))
    case Some(Fans) => d.state.fanOn.GetOr(false)
    case Some(Switch) => d.state.onoffOn.GetOr(false)
    case None => false
  }

  predicate Counts(d: Device, k: ChipKind) { Category(d) == Some(k) && Active(d) }

  /** The devices of a category that are active, in order. */
  function Of(devices: seq<Device>, k: ChipKind): (r: seq<Device>)
    ensures forall d :: d in r ==> Counts(d, k)
  {
    if devices == [] then []
    else
      var n := |devices| - 1;
      Of(devices[..n], k) + if Counts(devices[n], k) then [devices[n]] else []
  }

  function OpenBy(d: Device): nat
    requires Counts(d, Cover)
  {
    Round(d.state.position.GetOr(0.0))
  }

  lemma Snoc(devices: seq<Device>, i: nat)
    requires i < |devices|
    ensures devices[..i + 1][..i] == devices[..i]
    ensures forall k :: Of(devices[..i + 1], k) == Of(devices[..i], k) + if Counts(devices[i], k) then [devices[i]] else []
  {
    assert devices[..i + 1][..i] == devices[..i];
  }

  ghost predicate Counted(devices: seq<Device>, lights: nat, climate: nat, media: nat, fans: nat, switches: nat, open: seq<nat>) {
    && lights == |Of(devices, Light)| && climate == |Of(devices, Climate)| && media == |Of(devices, Player)|
    && fans == |Of(devices, Fans)| && switches == |Of(devices, Switch)|
    && |open| == |Of(devices, Cover)|
    && forall j :: 0 <= j < |open| ==> open[j] == OpenBy(Of(devices, Cover)[j])
  }

  function Label(devices: seq<Device>, k: ChipKind): string {
    var of := Of(devices, k);
    if k == Cover && |of| == 1 then Decimal(OpenBy(of[0])) + "%" else Decimal(|of|)
  }

  const Kinds := [Light, Climate, Player, Fans, Switch, Cover]

  function ChipsFrom(devices: seq<Device>, n: nat): seq<Chip>
    requires n <= |Kinds|
  {
    if n == 0 then []
    else ChipsFrom(devices, n - 1) + ChipFor(devices, Kinds[n - 1])
  }

  function ChipFor(devices: seq<Device>, k: ChipKind): (r: seq<Chip>)
    ensures r == [] <==> Of(devices, k) == []
  {
    if Of(devices, k) == [] then [] else [Chip(k, Label(devices, k))]
  }

  /** One chip for every category with an active device, in the fixed order. */
  function ChipsOf(devices: seq<Device>): seq<Chip> { ChipsFrom(devices, |Kinds|) }

  /** What the text says where the chip shows a label. */
  function Phrase(c: Chip): string {
    match c.kind
    case Light => Worded(c.caption, "light")
    case Climate => c.caption + " climate"
    case Player => Worded(c.caption, "player")
    case Fans => Worded(c.caption, "fan")
    case Switch => Worded(c.caption, "switch")
    case Cover => if c.caption != "" && c.caption[|c.caption| - 1] == '%' then "blinds " + c.caption else c.caption + " blinds open"
  }

  function Worded(caption: string, word: string): string {
    caption + " " + if caption == "1" then word else PluralWord(word)
  }

  function Phrases(chips: seq<Chip>): seq<string> {
    seq(|chips|, i requires 0 <= i < |chips| => Phrase(chips[i]))
  }

  /** The text says of each chip, in the same order, what the chip shows. */
  function PartsOf(devices: seq<Device>): seq<string> { Said(devices, |Kinds|) }

  function Said(devices: seq<Device>, n: nat): seq<string>
    requires n <= |Kinds|
  {
    Phrases(ChipsFrom(devices, n))
  }

  lemma WordedCount(n: nat, word: string)
    ensures Worded(Decimal(n), word) == Plural(n, word)
  {
    assert Decimal(1) == "1";
    if Decimal(n) == "1" { DecimalInjective(n, 1); }
  }

  lemma PhraseOfLabel(devices: seq<Device>)
    ensures Phrase(Chip(Light, Label(devices, Light))) == Plural(|Of(devices, Light)|, "light")
    ensures Phrase(Chip(Climate, Label(devices, Climate))) == Decimal(|Of(devices, Climate)|) + " climate"
    ensures Phrase(Chip(Player, Label(devices, Player))) == Plural(|Of(devices, Player)|, "player")
    ensures Phrase(Chip(Fans, Label(devices, Fans))) == Plural(|Of(devices, Fans)|, "fan")
    ensures Phrase(Chip(Switch, Label(devices, Switch))) == Plural(|Of(devices, Switch)|, "switch")
  {
    WordedLabel(devices, Light, "light");
    WordedLabel(devices, Player, "player");
    WordedLabel(devices, Fans, "fan");
    WordedLabel(devices, Switch, "switch");
  }

  lemma WordedLabel(devices: seq<Device>, k: ChipKind, word: string)
    requires k != Cover
    ensures Worded(Label(devices, k), word) == Plural(|Of(devices, k)|, word)
  {
    WordedCount(|Of(devices, k)|, word);
  }

  lemma PhraseOfBlinds(devices: seq<Device>, open: seq<nat>)
    requires |open| == |Of(devices, Cover)| && (|open| == 1 ==> open[0] == OpenBy(Of(devices, Cover)[0]))
    ensures Phrase(Chip(Cover, Label(devices, Cover))) == Blinds(open)
  {
    PhraseOfCovers(if |open| == 1 then open[0] else |open|);
  }

  lemma PhraseOfCovers(n: nat)
    ensures Phrase(Chip(Cover, Decimal(n) + "%")) == "blinds " + Decimal(n) + "%"
    ensures Phrase(Chip(Cover, Decimal(n))) == Decimal(n) + " blinds open"
  {
    assert IsDigit(Decimal(n)[|Decimal(n)| - 1]);
    assert "blinds " + (Decimal(n) + "%") == "blinds " + Decimal(n) + "%";
  }

  // ---- what holds of both ----

  /** The line is empty exactly when there is no chip, which is when nothing in the room is active. */
  lemma EmptyTogether(devices: seq<Device>)
    ensures Join(PartsOf(devices)) == "" <==> ChipsOf(devices) == []
    ensures ChipsOf(devices) == [] <==> forall i :: 0 <= i < |devices| ==> !Active(devices[i])
  {
    var chips, parts := ChipsOf(devices), PartsOf(devices);
    if chips != [] { PhraseNotEmpty(chips[0]); }
    if i :| 0 <= i < |devices| && Active(devices[i]) {
      var k := Category(devices[i]).value;
      CountOf(devices, k, devices[i]);
      assert Of(devices, k) != [];
      ChipThere(devices, |Kinds|, Place(k));
    }
    if chips != [] {
      var m := SomeChip(devices, |Kinds|);
      var d := Of(devices, Kinds[m])[0];
      CountOf(devices, Kinds[m], d);
      assert d in multiset(Of(devices, Kinds[m]));
      assert d in devices && Active(d);
    }
  }

  lemma PhraseNotEmpty(c: Chip)
    ensures Phrase(c) != ""
  {
  }

  lemma {:induction false} ChipThere(devices: seq<Device>, n: nat, m: nat)
    requires m < n <= |Kinds| && Of(devices, Kinds[m]) != []
    ensures ChipsFrom(devices, n) != []
  {
    var before, last := ChipsFrom(devices, n - 1), ChipFor(devices, Kinds[n - 1]);
    if m < n - 1 { ChipThere(devices, n - 1, m); }
    assert |before + last| == |before| + |last|;
  }

  lemma {:induction false} SomeChip(devices: seq<Device>, n: nat) returns (m: nat)
    requires n <= |Kinds| && ChipsFrom(devices, n) != []
    ensures m < n && Of(devices, Kinds[m]) != []
  {
    m := n - 1;
    if Of(devices, Kinds[m]) == [] { m := SomeChip(devices, n - 1); }
  }

  function Place(k: ChipKind): (n: nat)
    ensures n < |Kinds| && Kinds[n] == k
  {
    match k
    case Light => 0
    case Climate => 1
    case Player => 2
    case Fans => 3
    case Switch => 4
    case Cover => 5
  }

  lemma {:induction false} CountOf(devices: seq<Device>, k: ChipKind, d: Device)
    ensures multiset(Of(devices, k))[d] == if Counts(d, k) then multiset(devices)[d] else 0
  {
    if devices != [] {
      var n := |devices| - 1;
      CountOf(devices[..n], k, d);
      assert devices == devices[..n] + [devices[n]];
    }
  }

  function NumberActive(devices: seq<Device>): nat {
    if devices == [] then 0
    else NumberActive(devices[..|devices| - 1]) + if Active(devices[|devices| - 1]) then 1 else 0
  }

  /** Each active device counts in exactly one category and every other device in none. */
  lemma {:induction false} EachCountsOnce(devices: seq<Device>)
    ensures |Of(devices, Light)| + |Of(devices, Climate)| + |Of(devices, Player)| + |Of(devices, Fans)|
            + |Of(devices, Switch)| + |Of(devices, Cover)| == NumberActive(devices)
  {
    if devices != [] { EachCountsOnce(devices[..|devices| - 1]); }
  }

  lemma SameLabels(a: seq<Device>, b: seq<Device>, k: ChipKind)
    requires multiset(a) == multiset(b)
    ensures |Of(a, k)| == |Of(b, k)| && Label(a, k) == Label(b, k)
  {
    var ofA, ofB := Of(a, k), Of(b, k);
    forall d ensures multiset(ofA)[d] == multiset(ofB)[d] {
      CountOf(a, k, d);
      CountOf(b, k, d);
    }
    assert multiset(ofA) == multiset(ofB);
    SameSize(ofA, ofB);
  }

  lemma SameSize<T>(a: seq<T>, b: seq<T>)
    requires multiset(a) == multiset(b)
    ensures |a| == |b| && (|a| == 1 ==> a[0] == b[0])
  {
    assert |a| == |multiset(a)| && |b| == |multiset(b)|;
    if |a| == 1 {
      assert a[0] in multiset(b);
      assert b == [b[0]];
    }
  }

  lemma {:induction false} SameChips(a: seq<Device>, b: seq<Device>, n: nat)
    requires multiset(a) == multiset(b) && n <= |Kinds|
    ensures ChipsFrom(a, n) == ChipsFrom(b, n)
  {
    if n > 0 {
      SameChips(a, b, n - 1);
      SameLabels(a, b, Kinds[n - 1]);
    }
  }

  /** Neither summary depends on the order of the devices. */
  lemma OrderIrrelevant(a: seq<Device>, b: seq<Device>)
    requires multiset(a) == multiset(b)
    ensures ChipsOf(a) == ChipsOf(b) && Join(PartsOf(a)) == Join(PartsOf(b))
  {
    SameChips(a, b, |Kinds|);
  }

  // ---- what counts, and how it reads ----

  /** A cover counts when it is open at all; it is never taken for a light, whatever else it can do. */
  lemma CountsIff(d: Device)
    ensures Counts(d, Cover) <==> Position in d.caps && d.state.position.GetOr(0.0) >= 0.5
    ensures Position !in d.caps ==>
              var light := Brightness in d.caps || Color in d.caps;
              && (Counts(d, Light) <==>
                    light && (d.state.brightnessOn == Some(true)
                              || (d.state.brightnessOn.None? && d.state.colorOn == Some(true))
                              || (d.state.brightnessOn.None? && d.state.colorOn.None? && d.state.onoffOn == Some(true))))
              && (Counts(d, Climate) <==>
                    !light && Temperature in d.caps && d.state.mode.Some? && d.state.mode.value !in ["", "off"])
              && (Counts(d, Player) <==>
                    !light && Temperature !in d.caps && Media in d.caps
                    && d.state.playback.Some? && d.state.playback.value in ["playing", "paused"])
    ensures {Position, Brightness, Color, Temperature, Media} !! (set k | k in d.caps) ==>
              && (Counts(d, Fans) <==> Fan in d.caps && d.state.fanOn == Some(true))
              && (Counts(d, Switch) <==> Fan !in d.caps && OnOff in d.caps && d.state.onoffOn == Some(true))
  {
  }

  /** A chip shows how many there are; that of a single open cover shows how far, to the nearest percent. */
  lemma CaptionIs(devices: seq<Device>, k: ChipKind)
    ensures k != Cover || |Of(devices, k)| != 1 ==> Label(devices, k) == Decimal(|Of(devices, k)|)
    ensures |Of(devices, Cover)| == 1 ==>
              exists n: nat :: Label(devices, Cover) == Decimal(n) + "%"
                               && n as real - 0.5 <= Of(devices, Cover)[0].state.position.GetOr(0.0) < n as real + 0.5
  {
    if |Of(devices, Cover)| == 1 {
      var n: nat := OpenBy(Of(devices, Cover)[0]);
      assert Label(devices, Cover) == Decimal(n) + "%";
    }
  }

  /** The room reads in the singular for one and in the plural for any other number. */
  lemma PluralIs(n: nat)
    ensures Plural(1, "light") == "1 light" && (n != 1 ==> Plural(n, "light") == Decimal(n) + " lights")
    ensures Plural(1, "switch") == "1 switch" && (n != 1 ==> Plural(n, "switch") == Decimal(n) + " switches")
  {
    assert Decimal(1) == "1";
  }

  /** Where part `i` begins in the line. */
  function Offset(parts: seq<string>, i: nat): nat
    requires i <= |parts|
  {
    if i == 0 then 0 else |parts[0]| + |Dot| + Offset(parts[1..], i - 1)
  }

  lemma SliceShift(head: string, rest: string, from: nat, to: nat)
    requires from <= to <= |rest|
    ensures (head + rest)[|head| + from..|head| + to] == rest[from..to]
  {
  }

  /** The line holds every part at its place … */
  lemma {:induction false} JoinHolds(parts: seq<string>, i: nat)
    requires i < |parts|
    ensures var at := Offset(parts, i);
            && at + |parts[i]| <= |Join(parts)| && Join(parts)[at..at + |parts[i]|] == parts[i]
            && (i == |parts| - 1 ==> at + |parts[i]| == |Join(parts)|)
    decreases i
  {
    if |parts| > 1 {
      var head, rest := parts[0] + Dot, Join(parts[1..]);
      assert Join(parts) == head + rest;
      if i > 0 {
        var at := Offset(parts[1..], i - 1);
        JoinHolds(parts[1..], i - 1);
        SliceShift(head, rest, at, at + |parts[i]|);
      }
    }
  }

  /** … and a dot between each two, so nothing else. */
  lemma {:induction false} JoinDots(parts: seq<string>, i: nat)
    requires i + 1 < |parts|
    ensures var end := Offset(parts, i) + |parts[i]|;
            && Offset(parts, i + 1) == end + |Dot| <= |Join(parts)|
            && Join(parts)[end..end + |Dot|] == Dot
    decreases i
  {
    var head, rest := parts[0] + Dot, Join(parts[1..]);
    assert Join(parts) == head + rest;
    if i == 0 {
      assert Offset(parts, 1) == |head| + Offset(parts[1..], 0);
    } else {
      var end := Offset(parts[1..], i - 1) + |parts[i]|;
      JoinDots(parts[1..], i - 1);
      SliceShift(head, rest, end, end + |Dot|);
    }
  }
}
