/**
 * The conference agenda and what is built from it: the session matcher, the
 * track buttons offered to the user, the response card that carries them and
 * the per-track digest shown when the track is still unknown.
 */
module Agenda {
  import opened Wrappers
  import opened Text

  /** One agenda entry; `start` and `end` are `HH:MM` readings. */
  datatype Session = Session(name: string, track: string, date: string, start: string, end: string)

  /** A choice offered on a response card. */
  datatype Button = Button(text: string, value: string)

  /** The fixed envelope every card carries. */
  const CardContentType := "application/vnd.amazonaws.card.generic"
  const CardVersion := 1

  /**
   * A generic response card: its envelope, then its one attachment's title,
   * subtitle and buttons (`None` when the card was built without options).
   */
  datatype ResponseCard = ResponseCard(contentType: string, version: int,
                                       title: string, subTitle: string, buttons: Option<seq<Button>>)

  /** A card never shows more buttons than this. */
  const MaxButtons := 5

  /** Python truthiness of an optional string: present and non-empty. */
  predicate Truthy(s: Option<string>) {
    s.Some? && s.value != ""
  }

  function Min(a: int, b: int): int {
    if a < b then a else b
  }

  // ---------------------------------------------------------------------------
  // Session matcher

  /** The track matches ignoring case, the date exactly, and the session starts after `time`. */
  predicate Qualifies(s: Session, track: string, date: string, time: string) {
    Lower(s.track) == Lower(track) && s.date == date && Less(time, s.start)
  }

  /** The first qualifying session at position `i` or later. */
  function FirstFrom(track: string, date: string, time: string, agenda: seq<Session>, i: nat): Option<Session>
    decreases |agenda| - i
  {
    if i >= |agenda| then None
    else if Qualifies(agenda[i], track, date, time) then Some(agenda[i])
    else FirstFrom(track, date, time, agenda, i + 1)
  }

  /** What the matcher answers: nothing without a track, else the first qualifying session. */
  function SessionFor(track: Option<string>, date: string, time: string, agenda: seq<Session>): Option<Session> {
    if Truthy(track) then FirstFrom(track.value, date, time, agenda, 0) else None
  }

  /** Scans the agenda in order and stops at the first qualifying session. */
  method FindSession(track: Option<string>, date: string, time: string, agenda: seq<Session>)
    returns (found: Option<Session>)
    ensures found == SessionFor(track, date, time, agenda)
  {
    if !Truthy(track) {
      return None;
    }
    for i := 0 to |agenda|
      invariant FirstFrom(track.value, date, time, agenda, i) == SessionFor(track, date, time, agenda)
    {
      if Lower(agenda[i].track) == Lower(track.value) && agenda[i].date == date {
        if Less(time, agenda[i].start) {
          return Some(agenda[i]);
        }
      }
    }
    return None;
  }

  lemma {:induction false} FirstFromIsFirst(track: string, date: string, time: string, agenda: seq<Session>, i: nat)
    ensures FirstFrom(track, date, time, agenda, i).None? <==>
              forall k :: i <= k < |agenda| ==> !Qualifies(agenda[k], track, date, time)
    ensures FirstFrom(track, date, time, agenda, i).Some? ==>
              exists k :: && i <= k < |agenda|
                          && agenda[k] == FirstFrom(track, date, time, agenda, i).value
                          && Qualifies(agenda[k], track, date, time)
                          && forall j :: i <= j < k ==> !Qualifies(agenda[j], track, date, time)
    decreases |agenda| - i
  {
    if i < |agenda| && !Qualifies(agenda[i], track, date, time) {
      FirstFromIsFirst(track, date, time, agenda, i + 1);
      var r := FirstFrom(track, date, time, agenda, i);
      if r.Some? {
        var k :| && i + 1 <= k < |agenda| && agenda[k] == r.value
                 && Qualifies(agenda[k], track, date, time)
                 && forall j :: i + 1 <= j < k ==> !Qualifies(agenda[j], track, date, time);
        assert forall j :: i <= j < k ==> !Qualifies(agenda[j], track, date, time);
      }
    }
  }

  /**
   * Without a (non-empty) track the matcher finds nothing; with one, it finds
   * nothing exactly when no session qualifies, and otherwise the qualifying
   * session that comes first in agenda order.
   */
  lemma SessionForIsFirstMatch(track: Option<string>, date: string, time: string, agenda: seq<Session>)
    ensures !Truthy(track) ==> SessionFor(track, date, time, agenda) == None
    ensures Truthy(track) ==>
              (SessionFor(track, date, time, agenda).None? <==>
                 forall k :: 0 <= k < |agenda| ==> !Qualifies(agenda[k], track.value, date, time))
    ensures SessionFor(track, date, time, agenda).Some? ==>
              exists k :: && 0 <= k < |agenda|
                          && agenda[k] == SessionFor(track, date, time, agenda).value
                          && Qualifies(agenda[k], track.value, date, time)
                          && forall j :: 0 <= j < k ==> !Qualifies(agenda[j], track.value, date, time)
  {
    if Truthy(track) {
      FirstFromIsFirst(track.value, date, time, agenda, 0);
    }
  }

  /** Sessions that do not qualify are passed over. */
  lemma {:induction false} FirstFromSkips(track: string, date: string, time: string, agenda: seq<Session>, i: nat, j: nat)
    requires i <= j <= |agenda|
    requires forall k :: i <= k < j ==> !Qualifies(agenda[k], track, date, time)
    ensures FirstFrom(track, date, time, agenda, i) == FirstFrom(track, date, time, agenda, j)
    decreases j - i
  {
    if i < j {
      FirstFromSkips(track, date, time, agenda, i + 1, j);
    }
  }

  /** Sessions that start at or before `time` are passed over, whatever their track and date. */
  lemma BeganBefore(agenda: seq<Session>, j: nat, time: string)
    requires j <= |agenda|
    requires forall k :: 0 <= k < j ==> IsClock(agenda[k].start)
    requires IsClock(time) && forall k :: 0 <= k < j ==> ClockMinutes(agenda[k].start) <= ClockMinutes(time)
    ensures forall track, date :: FirstFrom(track, date, time, agenda, 0) == FirstFrom(track, date, time, agenda, j)
  {
    forall track, date
      ensures FirstFrom(track, date, time, agenda, 0) == FirstFrom(track, date, time, agenda, j)
    {
      forall k | 0 <= k < j
        ensures !Qualifies(agenda[k], track, date, time)
      {
        ClockOrder(time, agenda[k].start);
      }
      FirstFromSkips(track, date, time, agenda, 0, j);
    }
  }

  /** Sessions of one track on one day are listed by ascending start. */
  ghost predicate StartOrdered(agenda: seq<Session>) {
    forall i, j ::
      (0 <= i < j < |agenda| && Lower(agenda[i].track) == Lower(agenda[j].track) && agenda[i].date == agenda[j].date)
      ==> !Less(agenda[j].start, agenda[i].start)
  }

  /**
   * On an agenda ordered by start within each track and day, the first match
   * is also the earliest: no qualifying session starts before it.
   */
  lemma SessionForIsEarliest(track: Option<string>, date: string, time: string, agenda: seq<Session>)
    requires StartOrdered(agenda)
    ensures SessionFor(track, date, time, agenda).Some? ==>
              forall k :: 0 <= k < |agenda| && Qualifies(agenda[k], track.value, date, time) ==>
                !Less(agenda[k].start, SessionFor(track, date, time, agenda).value.start)
  {
    var r := SessionFor(track, date, time, agenda);
    if r.Some? {
      SessionForIsFirstMatch(track, date, time, agenda);
      var i :| && 0 <= i < |agenda| && agenda[i] == r.value
               && Qualifies(agenda[i], track.value, date, time)
               && forall j :: 0 <= j < i ==> !Qualifies(agenda[j], track.value, date, time);
      forall k | 0 <= k < |agenda| && Qualifies(agenda[k], track.value, date, time)
        ensures !Less(agenda[k].start, r.value.start)
      {
        if k == i {
          LessIrreflexive(r.value.start);
        }
      }
    }
  }

  // ---------------------------------------------------------------------------
  // Track buttons

  /** The button for one track: present exactly when the matcher hits for it. */
  function OptionFor(t: string, date: string, time: string, agenda: seq<Session>): seq<Button> {
    match SessionFor(Some(t), date, time, agenda)
    case None => []
    case Some(s) => [Button(s.track + " at " + s.start, t)]
  }

  /** The buttons for a list of tracks, in list order. */
  function OptionsFor(date: string, time: string, agenda: seq<Session>, types: seq<string>): seq<Button>
    decreases |types|
  {
    if |types| == 0 then []
    else OptionsFor(date, time, agenda, types[..|types| - 1]) + OptionFor(types[|types| - 1], date, time, agenda)
  }

  /** Appends one button per track that has a session after `time`. */
  method BuildOptions(date: string, time: string, agenda: seq<Session>, types: seq<string>)
    returns (options: seq<Button>)
    ensures options == OptionsFor(date, time, agenda, types)
  {
    options := [];
    for i := 0 to |types|
      invariant options == OptionsFor(date, time, agenda, types[..i])
    {
      assert types[..i + 1][..i] == types[..i];
      var s := FindSession(Some(types[i]), date, time, agenda);
      if s.Some? {
        options := options + [Button(s.value.track + " at " + s.value.start, types[i])];
      }
    }
    assert types[..|types|] == types;
  }

  /** The buttons of consecutive track lists follow one another: nothing is reordered. */
  lemma {:induction false} OptionsForAppend(date: string, time: string, agenda: seq<Session>, a: seq<string>, b: seq<string>)
    ensures OptionsFor(date, time, agenda, a + b) == OptionsFor(date, time, agenda, a) + OptionsFor(date, time, agenda, b)
    decreases |b|
  {
    if |b| > 0 {
      var b' := b[..|b| - 1];
      assert (a + b)[..|a + b| - 1] == a + b';
      OptionsForAppend(date, time, agenda, a, b');
    } else {
      assert a + b == a;
    }
  }

  /** At most one button per track. */
  lemma {:induction false} OptionsForBound(date: string, time: string, agenda: seq<Session>, types: seq<string>)
    ensures |OptionsFor(date, time, agenda, types)| <= |types|
    decreases |types|
  {
    if |types| > 0 {
      OptionsForBound(date, time, agenda, types[..|types| - 1]);
    }
  }

  /**
   * Every button names a listed track that has a match, and its text is
   * "<track> at <start>" of that match.
   */
  lemma {:induction false} OptionsForSound(date: string, time: string, agenda: seq<Session>, types: seq<string>)
    ensures forall k :: 0 <= k < |OptionsFor(date, time, agenda, types)| ==>
              var b := OptionsFor(date, time, agenda, types)[k];
              var hit := SessionFor(Some(b.value), date, time, agenda);
              b.value in types && hit.Some? && b.text == hit.value.track + " at " + hit.value.start
    decreases |types|
  {
    if |types| > 0 {
      var front := types[..|types| - 1];
      OptionsForSound(date, time, agenda, front);
      var prev := OptionsFor(date, time, agenda, front);
      var opts := OptionsFor(date, time, agenda, types);
      assert opts == prev + OptionFor(types[|types| - 1], date, time, agenda);
      forall k | 0 <= k < |opts|
        ensures opts[k].value in types
      {
        if k < |prev| {
          assert opts[k] == prev[k];
          assert prev[k].value in front;
        }
      }
    }
  }

  /** Every listed track that has a match gets a button. */
  lemma {:induction false} OptionsForComplete(date: string, time: string, agenda: seq<Session>, types: seq<string>, t: string)
    requires t in types && SessionFor(Some(t), date, time, agenda).Some?
    ensures exists k :: 0 <= k < |OptionsFor(date, time, agenda, types)| && OptionsFor(date, time, agenda, types)[k].value == t
    decreases |types|
  {
    var front := types[..|types| - 1];
    var last := types[|types| - 1];
    var opts := OptionsFor(date, time, agenda, types);
    var prev := OptionsFor(date, time, agenda, front);
    assert opts == prev + OptionFor(last, date, time, agenda);
    if t == last {
      assert opts[|opts| - 1].value == t;
    } else {
      assert t in front by {
        var j :| 0 <= j < |types| && types[j] == t;
        assert front[j] == t;
      }
      OptionsForComplete(date, time, agenda, front, t);
      var k :| 0 <= k < |prev| && prev[k].value == t;
      assert opts[k] == prev[k];
    }
  }

  /** Tracks listed once each get at most one button each: no two buttons share a value. */
  lemma {:induction false} OptionsForDistinct(date: string, time: string, agenda: seq<Session>, types: seq<string>)
    requires forall i, j :: 0 <= i < j < |types| ==> types[i] != types[j]
    ensures forall i, j :: 0 <= i < j < |OptionsFor(date, time, agenda, types)| ==>
              OptionsFor(date, time, agenda, types)[i].value != OptionsFor(date, time, agenda, types)[j].value
    decreases |types|
  {
    if |types| > 0 {
      var front := types[..|types| - 1];
      var last := types[|types| - 1];
      OptionsForDistinct(date, time, agenda, front);
      OptionsForSound(date, time, agenda, front);
      var prev := OptionsFor(date, time, agenda, front);
      var opts := OptionsFor(date, time, agenda, types);
      assert opts == prev + OptionFor(last, date, time, agenda);
      assert last !in front;
      forall i, j | 0 <= i < j < |opts|
        ensures opts[i].value != opts[j].value
      {
        assert opts[i] == prev[i];
        if j < |prev| {
          assert opts[j] == prev[j];
        } else {
          assert opts[j].value == last;
          assert prev[i].value in front;
        }
      }
    }
  }

  // ---------------------------------------------------------------------------
  // Response card

  /** The card a title, subtitle and optional option list describe. */
  function CardFor(title: string, subTitle: string, options: Option<seq<Button>>): (card: ResponseCard)
    ensures card.contentType == CardContentType && card.version == CardVersion
    ensures card.title == title && card.subTitle == subTitle
    ensures card.buttons.None? <==> options.None?
    ensures options.Some? ==> && |card.buttons.value| <= MaxButtons
                              && card.buttons.value <= options.value
                              && (|options.value| <= MaxButtons ==> card.buttons.value == options.value)
  {
    ResponseCard(CardContentType, CardVersion, title, subTitle, match options
      case None => None
      case Some(o) => Some(o[..Min(MaxButtons, |o|)]))
  }

  /** Copies the first (at most five) options into the card's buttons. */
  method BuildResponseCard(title: string, subTitle: string, options: Option<seq<Button>>)
    returns (card: ResponseCard)
    ensures card == CardFor(title, subTitle, options)
  {
    var buttons: Option<seq<Button>> := None;
    if options.Some? {
      var b: seq<Button> := [];
      for i := 0 to Min(MaxButtons, |options.value|)
        invariant b == options.value[..i]
      {
        b := b + [options.value[i]];
      }
      buttons := Some(b);
    }
    card := ResponseCard(CardContentType, CardVersion, title, subTitle, buttons);
  }

  // ---------------------------------------------------------------------------
  // Per-track digest

  const DigestHeader := "Sessions found: \n"

  /** One digest line: the track's next session, or "None" when it has none. */
  function DigestLine(t: string, date: string, time: string, agenda: seq<Session>): string {
    match SessionFor(Some(t), date, time, agenda)
    case Some(s) => "-" + s.track + " track: " + s.name + " from " + s.start + " to " + s.end + "\n"
    case None => "-" + t + " track: None\n"
  }

  /** The digest lines of a list of tracks, in list order. */
  function DigestBody(date: string, time: string, agenda: seq<Session>, types: seq<string>): string
    decreases |types|
  {
    if |types| == 0 then ""
    else DigestBody(date, time, agenda, types[..|types| - 1]) + DigestLine(types[|types| - 1], date, time, agenda)
  }

  /** Looks up one track and formats its digest line. */
  method DescribeTrack(t: string, date: string, time: string, agenda: seq<Session>)
    returns (line: string)
    ensures line == DigestLine(t, date, time, agenda)
  {
    var session := FindSession(Some(t), date, time, agenda);
    if session.Some? {
      var s := session.value;
      line := "-" + s.track + " track: " + s.name + " from " + s.start + " to " + s.end + "\n";
    } else {
      line := "-" + t + " track: None\n";
    }
  }

  /** Accumulates the digest shown before asking for the track. */
  method DescribeTracks(date: string, time: string, agenda: seq<Session>, types: seq<string>)
    returns (content: string)
    ensures content == DigestHeader + DigestBody(date, time, agenda, types)
  {
    var body := "";
    for i := 0 to |types|
      invariant body == DigestBody(date, time, agenda, types[..i])
    {
      var line := DescribeTrack(types[i], date, time, agenda);
      DigestBodyStep(date, time, agenda, types, i);
      body := body + line;
    }
    assert types[..|types|] == types;
    content := DigestHeader + body;
  }

  lemma DigestBodyStep(date: string, time: string, agenda: seq<Session>, types: seq<string>, i: nat)
    requires i < |types|
    ensures DigestBody(date, time, agenda, types[..i + 1])
            == DigestBody(date, time, agenda, types[..i]) + DigestLine(types[i], date, time, agenda)
  {
    assert types[..i + 1][..i] == types[..i];
  }

  /** The digest of consecutive track lists is the concatenation: one line per track, in order. */
  lemma {:induction false} DigestBodyAppend(date: string, time: string, agenda: seq<Session>, a: seq<string>, b: seq<string>)
    ensures DigestBody(date, time, agenda, a + b) == DigestBody(date, time, agenda, a) + DigestBody(date, time, agenda, b)
    decreases |b|
  {
    if |b| > 0 {
      var b' := b[..|b| - 1];
      assert (a + b)[..|a + b| - 1] == a + b';
      DigestBodyAppend(date, time, agenda, a, b');
    } else {
      assert a + b == a;
    }
  }
}
