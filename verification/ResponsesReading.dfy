/**
  What the observer of a Responses stream records, in terms of what was sent: the bytes of
  the lines a server writes, and the fields of the events they decode to.
 */
module ResponsesReading {
  import opened Wrappers
  import opened Seqs
  import opened ResponsesStream

  // ---------------------------------------------------------------- a stream as it is written

  /** One line of an event: a value with or without a space in front, or a line of another field. */
  datatype SentLine =
    | Value(value: Bytes, spaced: bool, crlf: bool)
    | Other(text: Bytes, crlf: bool)

  /** The lines of an event, and how the blank line behind them ends. */
  datatype SentEvent = SentEvent(lines: seq<SentLine>, crlf: bool)

  const FIELD: Bytes := [100, 97, 116, 97, 58]

  function LineText(line: SentLine): Bytes
  {
    match line
    case Value(value, spaced, _) => FIELD + (if spaced then [32] else []) + value
    case Other(text, _) => text
  }

  function End(crlf: bool): Bytes { if crlf then [13, 10] else [10] }

  /** No line feed inside, and what ends the line is what ends it. */
  predicate OneLine(text: Bytes, crlf: bool)
  {
    && (forall i :: 0 <= i < |text| ==> text[i] != 10)
    && (!crlf && text != [] ==> text[|text| - 1] != 13)
  }

  predicate Sendable(line: SentLine)
  {
    && OneLine(LineText(line), line.crlf)
    && (line.Value? && !line.spaced && line.value != [] ==> line.value[0] != 32)
    && (line.Other? ==> line.text != [] && !(FIELD <= line.text))
  }

  predicate AllSendable(lines: seq<SentLine>)
  {
    forall i :: 0 <= i < |lines| ==> Sendable(lines[i])
  }

  function LinesSent(lines: seq<SentLine>): Bytes
  {
    if lines == [] then [] else LineText(lines[0]) + End(lines[0].crlf) + LinesSent(lines[1..])
  }

  function Sent(events: seq<SentEvent>): Bytes
  {
    if events == [] then [] else LinesSent(events[0].lines) + (End(events[0].crlf) + Sent(events[1..]))
  }

  /** The values of an event, each with a line feed behind it. */
  function Values(lines: seq<SentLine>): Bytes
  {
    if lines == [] then []
    else (if lines[0].Value? then lines[0].value + [10] else []) + Values(lines[1..])
  }

  function AllValues(events: seq<SentEvent>): seq<Bytes>
  {
    if events == [] then [] else [Values(events[0].lines)] + AllValues(events[1..])
  }

  function Texts(lines: seq<SentLine>): seq<Bytes>
  {
    if lines == [] then [] else [LineText(lines[0])] + Texts(lines[1..])
  }

  /** One line is read back whole, whatever follows it. */
  lemma OneLineRead(text: Bytes, crlf: bool, rest: Bytes)
    requires OneLine(text, crlf)
    ensures var stream := text + End(crlf) + rest;
            && Lines(stream) == [text] + Lines(rest) && Unterminated(stream) == Unterminated(rest)
  {
    var stream := text + End(crlf) + rest;
    var k := |text| + (if crlf then 1 else 0);
    assert stream[k] == 10;
    assert forall i :: 0 <= i < |text| ==> stream[i] == text[i];
    assert forall i :: 0 <= i < k ==> stream[i] != 10;
    assert IndexLF(stream) == k;
    assert stream[k + 1..] == rest;
    assert stream[..k] == text + (if crlf then [13] else []);
    LinesStep(stream, k);
    assert TrimCR(stream[..k]) == text;
  }

  lemma {:induction false} LinesRead(lines: seq<SentLine>, rest: Bytes)
    requires AllSendable(lines)
    ensures Lines(LinesSent(lines) + rest) == Texts(lines) + Lines(rest)
    ensures Unterminated(LinesSent(lines) + rest) == Unterminated(rest)
  {
    hide Lines, Unterminated, LineText, Sendable;
    if lines == [] {
      assert LinesSent(lines) + rest == rest && Texts(lines) + Lines(rest) == Lines(rest);
    } else {
      var text, end, tail := LineText(lines[0]), End(lines[0].crlf), LinesSent(lines[1..]);
      LinesRead(lines[1..], rest);
      LineIsOne(lines[0]);
      OneLineRead(text, lines[0].crlf, tail + rest);
      assert text + end + tail + rest == text + end + (tail + rest);
      assert Texts(lines) + Lines(rest) == [text] + (Texts(lines[1..]) + Lines(rest));
    }
  }

  lemma LineIsOne(line: SentLine)
    requires Sendable(line)
    ensures OneLine(LineText(line), line.crlf)
  {
    hide LineText;
  }

  lemma LineIsValue(line: SentLine)
    requires Sendable(line)
    ensures LineText(line) != [] && (HasData(LineText(line)) <==> line.Value?)
    ensures line.Value? ==> DataValue(LineText(line)) == line.value
  {
    var text := LineText(line);
    if line.Value? {
      assert text == FIELD + ((if line.spaced then [32] else []) + line.value);
      assert text[5..] == (if line.spaced then [32] else []) + line.value;
      assert text[5..][..] == text[5..];
      if line.spaced {
        assert text[5..][1..] == line.value;
      } else {
        assert text[5..] == line.value;
      }
    }
  }

  lemma {:induction false} TextsPayload(lines: seq<SentLine>)
    requires AllSendable(lines)
    ensures Payload(Texts(lines)) == Values(lines) && forall i :: 0 <= i < |Texts(lines)| ==> Texts(lines)[i] != []
  {
    hide Sendable, LineText, HasData, DataValue;
    if lines != [] {
      TextsPayload(lines[1..]);
      LineIsValue(lines[0]);
      assert Texts(lines)[1..] == Texts(lines[1..]);
    }
  }

  lemma OneEventRead(lines: seq<SentLine>, rest: seq<Bytes>)
    requires AllSendable(lines)
    ensures Payloads(Texts(lines) + [[]] + rest) == [Values(lines)] + Payloads(rest)
    ensures Pending(Texts(lines) + [[]] + rest) == Pending(rest)
  {
    hide AllSendable, Values, Texts, Payload;
    TextsPayload(lines);
    var texts := Texts(lines);
    var all := texts + [[]] + rest;
    assert all[|texts|] == [] && forall i :: 0 <= i < |texts| ==> all[i] == texts[i];
    assert FirstBlank(all) == |texts|;
    assert all[..|texts|] == texts && all[|texts| + 1..] == rest;
  }

  predicate EventsSendable(events: seq<SentEvent>)
  {
    forall i :: 0 <= i < |events| ==> AllSendable(events[i].lines)
  }

  /**
    What was sent is what is read: for any events, however their lines end and whether or not
    a space stands in front of a value, one payload for each event, its values with a line
    feed behind each, and nothing left over.
   */
  lemma {:induction false} SentIsRead(events: seq<SentEvent>)
    requires EventsSendable(events)
    ensures Payloads(Lines(Sent(events))) == AllValues(events)
    ensures Unterminated(Sent(events)) == [] && Pending(Lines(Sent(events))) == []
  {
    hide Lines, Unterminated, Payloads, Pending, AllSendable, Texts, LinesSent, Values;
    if events == [] {
      NothingRead();
    } else {
      var e, rest := events[0], Sent(events[1..]);
      SentIsRead(events[1..]);
      LinesRead(e.lines, End(e.crlf) + rest);
      OneLineRead([], e.crlf, rest);
      assert [] + End(e.crlf) + rest == End(e.crlf) + rest;
      assert Texts(e.lines) + ([[]] + Lines(rest)) == Texts(e.lines) + [[]] + Lines(rest);
      OneEventRead(e.lines, Lines(rest));
    }
  }

  lemma NothingRead()
    ensures Lines([]) == [] && Unterminated([]) == [] && Payloads([]) == [] && Pending([]) == []
  {}

  // ---------------------------------------------------------------- what an event announces

  /** The text occurs in the payload, character by character. */
  predicate Mentions(payload: Bytes, text: string)
  {
    exists i :: 0 <= i <= |payload| - |text| && MentionsAt(payload, text, i)
  }

  predicate MentionsAt(payload: Bytes, text: string, i: int)
    requires 0 <= i <= |payload| - |text|
  {
    forall k :: 0 <= k < |text| ==> payload[i + k] as int == text[k] as int
  }

  /** The event of a payload that mentions an encrypted item or an error code. */
  predicate Carried(decode: Decoder, payload: Bytes)
  {
    (Mentions(payload, "encrypted_content") || Mentions(payload, "\"code\"")) && decode(payload).Some?
  }

  /** Item `j` of an event: the item of a done event, or one of the output of a completed one. */
  predicate Holds(event: Event, j: nat, item: Item)
  {
    || (event.kind == "response.output_item.done" && j == 0 && item == event.item)
    || (event.kind == "response.completed" && j < |event.output| && item == event.output[j])
  }

  /** Item `j` of payload `i` is a reasoning item with this ID and content. */
  predicate Announces(decode: Decoder, payloads: seq<Bytes>, i: nat, j: nat, id: Bytes, content: Bytes)
  {
    && i < |payloads| && Carried(decode, payloads[i]) && id != [] && content != []
    && Holds(decode(payloads[i]).value, j, Item("reasoning", id, content))
  }

  lemma AsciiIs(s: string)
    requires forall k :: 0 <= k < |s| ==> s[k] as int < 128
    ensures forall k :: 0 <= k < |s| ==> Ascii(s)[k] as int == s[k] as int
  {}

  lemma ContainsIs(payload: Bytes, s: string)
    requires forall k :: 0 <= k < |s| ==> s[k] as int < 128
    ensures Contains(payload, Ascii(s)) <==> Mentions(payload, s)
  {
    AsciiIs(s);
    var needle := Ascii(s);
    hide Ascii;
    forall i | 0 <= i <= |payload| - |s|
      ensures FoundAt(payload, needle, i) <==> MentionsAt(payload, s, i)
    {
      var part := payload[i..i + |needle|];
      assert forall k :: 0 <= k < |s| ==> part[k] == payload[i + k];
      if MentionsAt(payload, s, i) {
        assert forall k :: 0 <= k < |s| ==> part[k] as int == needle[k] as int;
        assert part == needle;
      }
    }
    hide FoundAt, MentionsAt;
  }

  lemma CarriedIs(decode: Decoder, payload: Bytes)
    ensures DecodePayload(decode, payload).Some? <==> Carried(decode, payload)
    ensures Carried(decode, payload) ==> DecodePayload(decode, payload) == decode(payload)
  {
    hide Contains, Mentions, Ascii;
    ContainsIs(payload, "encrypted_content");
    ContainsIs(payload, "\"code\"");
  }

  lemma ItemsAre(event: Event, j: nat, item: Item)
    ensures j < |ItemsOf(event)| && ItemsOf(event)[j] == item <==> Holds(event, j, item)
  {}

  // ---------------------------------------------------------------- announcements in order

  /** Where an announcement stands: payload and item. */
  datatype Place = Place(i: nat, j: nat)

  predicate Precedes(a: Place, b: Place) { a.i < b.i || (a.i == b.i && a.j < b.j) }

  predicate Rising(places: seq<Place>)
  {
    forall m, n :: 0 <= m < n < |places| ==> Precedes(places[m], places[n])
  }

  predicate AnnouncedAt(decode: Decoder, payloads: seq<Bytes>, place: Place, r: Reasoning)
  {
    Announces(decode, payloads, place.i, place.j, r.id, r.encrypted)
  }

  /** The places of a list of announcements: every one of the payloads, in order. */
  ghost predicate Listed(decode: Decoder, payloads: seq<Bytes>, items: seq<Reasoning>, places: seq<Place>)
  {
    && |places| == |items| && Rising(places)
    && (forall n :: 0 <= n < |items| ==> AnnouncedAt(decode, payloads, places[n], items[n]))
    && (forall place, r :: AnnouncedAt(decode, payloads, place, r) ==> place in places)
  }

  /** The places of the reasoning items of payload `i`. */
  function PlacesOf(items: seq<Item>, i: nat): seq<Place>
  {
    if items == [] then []
    else PlacesOf(items[..|items| - 1], i) + (if Opaque(items[|items| - 1]) then [Place(i, |items| - 1)] else [])
  }

  predicate RowAt(items: seq<Item>, i: nat, place: Place, r: Reasoning)
  {
    && place.i == i && place.j < |items| && items[place.j] == Item("reasoning", r.id, r.encrypted)
    && r.id != [] && r.encrypted != []
  }

  /** The places are those of the reasoning items. */
  ghost predicate Places(items: seq<Item>, i: nat, places: seq<Place>, rows: seq<Reasoning>)
  {
    && |places| == |rows| && Rising(places)
    && (forall n :: 0 <= n < |places| ==> RowAt(items, i, places[n], rows[n]))
    && (forall place, r :: RowAt(items, i, place, r) ==> place in places)
  }

  lemma OneOpaque(item: Item)
    ensures OpaqueItems([item]) == if Opaque(item) then [Reasoning(item.id, item.encrypted)] else []
  {
    hide Opaque;
    assert [item][1..] == [];
  }

  lemma {:induction false} OpaqueSnoc(items: seq<Item>, last: Item)
    ensures OpaqueItems(items + [last])
         == OpaqueItems(items) + (if Opaque(last) then [Reasoning(last.id, last.encrypted)] else [])
  {
    OneOpaque(last);
    if items == [] {
      assert items + [last] == [last] && OpaqueItems(items) == [];
    } else {
      hide *;
      assert (items + [last])[1..] == items[1..] + [last] && (items + [last])[0] == items[0];
      OpaqueSnoc(items[1..], last);
      OpaqueStep(items);
      OpaqueStep(items + [last]);
      Assoc(OpaqueItems([items[0]]), OpaqueItems(items[1..]), OpaqueItems([last]));
    }
  }

  lemma PlacesStep(items: seq<Item>, i: nat, places: seq<Place>, rows: seq<Reasoning>, last: Item)
    requires Places(items, i, places, rows)
    ensures var r := Reasoning(last.id, last.encrypted);
            if Opaque(last) then Places(items + [last], i, places + [Place(i, |items|)], rows + [r])
            else Places(items + [last], i, places, rows)
  {
    var all := items + [last];
    forall place, r
      ensures RowAt(all, i, place, r) <==>
                RowAt(items, i, place, r)
                || (place == Place(i, |items|) && Opaque(last) && r == Reasoning(last.id, last.encrypted))
    {}
    hide RowAt, Opaque;
    var more, rest := places + [Place(i, |items|)], rows + [Reasoning(last.id, last.encrypted)];
    PlacesBelow(items, i, places, rows);
    if Opaque(last) {
      RisingGrows(places, Place(i, |items|));
      forall n | 0 <= n < |more|
        ensures RowAt(all, i, more[n], rest[n])
      {
        assert n < |places| ==> RowAt(items, i, places[n], rows[n]);
      }
      assert more[|places|] == Place(i, |items|);
    }
  }

  lemma PlacesBelow(items: seq<Item>, i: nat, places: seq<Place>, rows: seq<Reasoning>)
    requires Places(items, i, places, rows)
    ensures forall n :: 0 <= n < |places| ==> places[n].i == i && places[n].j < |items|
  {
    forall n | 0 <= n < |places|
      ensures places[n].i == i && places[n].j < |items|
    {
      assert RowAt(items, i, places[n], rows[n]);
    }
  }

  lemma RisingGrows(places: seq<Place>, last: Place)
    requires Rising(places) && forall n :: 0 <= n < |places| ==> Precedes(places[n], last)
    ensures Rising(places + [last])
  {}

  lemma {:induction false} PlacesMeaning(items: seq<Item>, i: nat)
    ensures Places(items, i, PlacesOf(items, i), OpaqueItems(items))
  {
    hide Places, Opaque;
    if items == [] {
      NoPlaces(i);
    } else {
      var init, last := items[..|items| - 1], items[|items| - 1];
      assert items == init + [last];
      PlacesMeaning(init, i);
      OpaqueSnoc(init, last);
      PlacesStep(init, i, PlacesOf(init, i), OpaqueItems(init), last);
      assert PlacesOf(init, i) + [] == PlacesOf(init, i) && OpaqueItems(init) + [] == OpaqueItems(init);
    }
  }

  lemma NoPlaces(i: nat)
    ensures Places([], i, PlacesOf([], i), OpaqueItems([]))
  {}

  /** The places of all announcements. */
  function AllPlaces(decode: Decoder, payloads: seq<Bytes>): seq<Place>
  {
    if payloads == [] then []
    else
      var i := |payloads| - 1;
      AllPlaces(decode, payloads[..i])
        + (match DecodePayload(decode, payloads[i]) case None => [] case Some(event) => PlacesOf(ItemsOf(event), i))
  }

  /** The announcements of the last payload. */
  lemma LastAnnounces(decode: Decoder, payloads: seq<Bytes>, place: Place, r: Reasoning)
    requires payloads != []
    ensures var i := |payloads| - 1;
            AnnouncedAt(decode, payloads, place, r) <==>
              || AnnouncedAt(decode, payloads[..i], place, r)
              || (DecodePayload(decode, payloads[i]).Some?
                  && RowAt(ItemsOf(DecodePayload(decode, payloads[i]).value), i, place, r))
  {
    var i := |payloads| - 1;
    CarriedIs(decode, payloads[i]);
    if DecodePayload(decode, payloads[i]).Some? {
      ItemsAre(decode(payloads[i]).value, place.j, Item("reasoning", r.id, r.encrypted));
    }
    hide Carried, DecodePayload, Holds, ItemsOf;
  }

  lemma {:induction false} AnnouncedSnoc(decode: Decoder, payloads: seq<Bytes>, last: Bytes)
    ensures Announced(decode, payloads + [last]) == Announced(decode, payloads) + Announced(decode, [last])
  {
    hide DecodePayload, OpaqueItems, ItemsOf;
    if payloads == [] {
      assert payloads + [last] == [last];
    } else {
      assert (payloads + [last])[1..] == payloads[1..] + [last];
      AnnouncedSnoc(decode, payloads[1..], last);
      AnnouncedStep(decode, payloads);
      AnnouncedStep(decode, payloads + [last]);
    }
  }

  lemma ListedStep(
    decode: Decoder, payloads: seq<Bytes>, items: seq<Reasoning>, places: seq<Place>,
    added: seq<Reasoning>, late: seq<Place>)
    requires payloads != []
    requires Listed(decode, payloads[..|payloads| - 1], items, places)
    requires match DecodePayload(decode, payloads[|payloads| - 1])
             case None => added == [] && late == []
             case Some(event) => Places(ItemsOf(event), |payloads| - 1, late, added)
    ensures Listed(decode, payloads, items + added, places + late)
  {
    var i := |payloads| - 1;
    forall place, r
      ensures AnnouncedAt(decode, payloads, place, r) <==>
                || AnnouncedAt(decode, payloads[..i], place, r)
                || (DecodePayload(decode, payloads[i]).Some?
                    && RowAt(ItemsOf(DecodePayload(decode, payloads[i]).value), i, place, r))
    {
      LastAnnounces(decode, payloads, place, r);
    }
    PlacesInFront(decode, payloads[..i], items, places);
    hide AnnouncedAt, DecodePayload, ItemsOf, RowAt;
    LateRising(places, late, i, DecodePayload(decode, payloads[i]), added);
    var all, rows := places + late, items + added;
    forall n | 0 <= n < |all|
      ensures AnnouncedAt(decode, payloads, all[n], rows[n])
    {
      if n < |places| {
        assert AnnouncedAt(decode, payloads[..i], places[n], items[n]);
      } else {
        assert RowAt(ItemsOf(DecodePayload(decode, payloads[i]).value), i, late[n - |places|], added[n - |places|]);
      }
    }
  }

  lemma PlacesInFront(decode: Decoder, payloads: seq<Bytes>, items: seq<Reasoning>, places: seq<Place>)
    requires Listed(decode, payloads, items, places)
    ensures forall n :: 0 <= n < |places| ==> places[n].i < |payloads|
  {
    forall n | 0 <= n < |places|
      ensures places[n].i < |payloads|
    {
      assert AnnouncedAt(decode, payloads, places[n], items[n]);
    }
  }

  lemma LateRising(places: seq<Place>, late: seq<Place>, i: nat, event: Option<Event>, added: seq<Reasoning>)
    requires Rising(places) && forall n :: 0 <= n < |places| ==> places[n].i < i
    requires match event case None => late == [] case Some(e) => Places(ItemsOf(e), i, late, added)
    ensures Rising(places + late)
  {
    if event.Some? {
      PlacesBelow(ItemsOf(event.value), i, late, added);
    }
    hide Places;
    assert late != [] ==> Rising(late);
  }

  lemma {:induction false} ListedMeaning(decode: Decoder, payloads: seq<Bytes>)
    ensures Listed(decode, payloads, Announced(decode, payloads), AllPlaces(decode, payloads))
  {
    hide Listed, DecodePayload, ItemsOf, Places;
    if payloads == [] {
      NothingListed(decode);
    } else {
      var i := |payloads| - 1;
      ListedMeaning(decode, payloads[..i]);
      assert payloads == payloads[..i] + [payloads[i]];
      AnnouncedSnoc(decode, payloads[..i], payloads[i]);
      AnnouncedOne(decode, payloads[i]);
      match DecodePayload(decode, payloads[i]) {
        case None => ListedStep(decode, payloads, Announced(decode, payloads[..i]), AllPlaces(decode, payloads[..i]), [], []);
        case Some(event) =>
          PlacesMeaning(ItemsOf(event), i);
          ListedStep(decode, payloads, Announced(decode, payloads[..i]), AllPlaces(decode, payloads[..i]),
            OpaqueItems(ItemsOf(event)), PlacesOf(ItemsOf(event), i));
      }
    }
  }

  lemma NothingListed(decode: Decoder)
    ensures Listed(decode, [], Announced(decode, []), AllPlaces(decode, []))
  {}

  lemma OneAt(decode: Decoder, payloads: seq<Bytes>, place: Place, r: Reasoning, other: Reasoning)
    requires AnnouncedAt(decode, payloads, place, r) && AnnouncedAt(decode, payloads, place, other)
    ensures r == other
  {
    hide Carried;
  }

  // ---------------------------------------------------------------- first seen, latest content

  /** Item `n` has the ID and the content, and no later item has the ID. */
  predicate LatestAt(items: seq<Reasoning>, n: nat, id: Bytes, content: Bytes)
  {
    n < |items| && items[n] == Reasoning(id, content) && forall m :: n < m < |items| ==> items[m].id != id
  }

  lemma {:induction false} LatestIs(items: seq<Reasoning>, id: Bytes)
    requires Occurs(items, id)
    ensures exists n: nat :: LatestAt(items, n, id, LatestContent(items, id))
  {
    var init, last := items[..|items| - 1], items[|items| - 1];
    if last.id == id {
      assert LatestAt(items, |items| - 1, id, LatestContent(items, id));
    } else {
      var n :| 0 <= n < |items| && items[n].id == id;
      assert init[n].id == id;
      LatestIs(init, id);
      var k: nat :| LatestAt(init, k, id, LatestContent(init, id));
      assert LatestAt(items, k, id, LatestContent(items, id));
    }
  }

  /** An item with the ID stands in front of all with the other. */
  ghost predicate SeenBefore(items: seq<Reasoning>, id: Bytes, other: Bytes)
  {
    exists n :: 0 <= n < |items| && items[n].id == id && forall m :: 0 <= m < |items| && items[m].id == other ==> n < m
  }

  ghost predicate Occurs(items: seq<Reasoning>, id: Bytes)
  {
    exists n :: 0 <= n < |items| && items[n].id == id
  }

  ghost predicate InOrder(items: seq<Reasoning>, ids: seq<Bytes>)
  {
    && (forall id :: id in ids <==> Occurs(items, id))
    && (forall k, l :: 0 <= k < l < |ids| ==> ids[k] != ids[l] && SeenBefore(items, ids[k], ids[l]))
  }

  lemma OccursStep(items: seq<Reasoning>, last: Reasoning, id: Bytes)
    ensures Occurs(items + [last], id) <==> Occurs(items, id) || last.id == id
  {
    var all := items + [last];
    if Occurs(items, id) {
      var n :| 0 <= n < |items| && items[n].id == id;
      assert all[n].id == id;
    }
    if last.id == id {
      assert all[|items|].id == id;
    }
  }

  lemma SeenStep(items: seq<Reasoning>, last: Reasoning, id: Bytes, other: Bytes)
    requires Occurs(items, id)
    requires if Occurs(items, other) then SeenBefore(items, id, other) else other == last.id
    ensures SeenBefore(items + [last], id, other)
  {
    var all := items + [last];
    var n: int;
    if Occurs(items, other) {
      n :| 0 <= n < |items| && items[n].id == id && forall m :: 0 <= m < |items| && items[m].id == other ==> n < m;
    } else {
      n :| 0 <= n < |items| && items[n].id == id;
    }
    assert all[n].id == id;
    forall m | 0 <= m < |all| && all[m].id == other
      ensures n < m
    {
      assert m < |items| ==> items[m].id == other;
    }
  }

  lemma {:induction false} FirstSeenIs(items: seq<Reasoning>)
    ensures InOrder(items, FirstSeen(items))
  {
    hide Occurs, SeenBefore;
    if items == [] {
      NoneOccurs();
    } else {
      var init, last := items[..|items| - 1], items[|items| - 1];
      assert items == init + [last];
      var ids, all := FirstSeen(init), FirstSeen(items);
      FirstSeenIs(init);
      FirstSeenDistinct(items);
      forall id
        ensures id in all <==> Occurs(items, id)
      {
        OccursStep(init, last, id);
      }
      forall k, l | 0 <= k < l < |all|
        ensures SeenBefore(items, all[k], all[l])
      {
        assert all[k] == ids[k] && ids[k] in ids;
        assert l < |ids| ==> all[l] == ids[l] && ids[l] in ids;
        SeenStep(init, last, all[k], all[l]);
      }
    }
  }

  lemma NoneOccurs()
    ensures forall id :: !Occurs([], id)
  {}

  // ---------------------------------------------------------------- the table

  /** `r` is announced, and no later announcement has its ID. */
  ghost predicate LastAnnounced(decode: Decoder, payloads: seq<Bytes>, r: Reasoning)
  {
    exists place :: AnnouncedAt(decode, payloads, place, r)
      && forall q, other :: AnnouncedAt(decode, payloads, q, other) && Precedes(place, q) ==> other.id != r.id
  }

  /** Some announcement of the ID precedes all of the other. */
  ghost predicate AnnouncedBefore(decode: Decoder, payloads: seq<Bytes>, id: Bytes, other: Bytes)
  {
    exists place, r :: AnnouncedAt(decode, payloads, place, r) && r.id == id
      && forall q, s :: AnnouncedAt(decode, payloads, q, s) && s.id == other ==> Precedes(place, q)
  }

  /** The table in terms of the events: an ID has a row if and only if it is announced, its latest content, first come first. */
  ghost predicate Records(decode: Decoder, payloads: seq<Bytes>, table: seq<Reasoning>)
  {
    && (forall k :: 0 <= k < |table| ==> LastAnnounced(decode, payloads, table[k]))
    && (forall place, r :: AnnouncedAt(decode, payloads, place, r) ==> exists k :: 0 <= k < |table| && table[k].id == r.id)
    && (forall k, l :: 0 <= k < l < |table| ==>
          table[k].id != table[l].id && AnnouncedBefore(decode, payloads, table[k].id, table[l].id))
  }

  lemma RowLast(decode: Decoder, payloads: seq<Bytes>, items: seq<Reasoning>, places: seq<Place>, n: nat)
    requires Listed(decode, payloads, items, places) && n < |items|
    requires forall m :: n < m < |items| ==> items[m].id != items[n].id
    ensures LastAnnounced(decode, payloads, items[n])
  {
    hide AnnouncedAt;
    forall q, other | AnnouncedAt(decode, payloads, q, other) && Precedes(places[n], q)
      ensures other.id != items[n].id
    {
      var m :| 0 <= m < |places| && places[m] == q;
      OneAt(decode, payloads, q, other, items[m]);
      assert n < m;
    }
    assert AnnouncedAt(decode, payloads, places[n], items[n]);
  }

  lemma RowBefore(decode: Decoder, payloads: seq<Bytes>, items: seq<Reasoning>, places: seq<Place>, id: Bytes, other: Bytes)
    requires Listed(decode, payloads, items, places) && SeenBefore(items, id, other)
    ensures AnnouncedBefore(decode, payloads, id, other)
  {
    hide AnnouncedAt;
    var n :| 0 <= n < |items| && items[n].id == id && forall m :: 0 <= m < |items| && items[m].id == other ==> n < m;
    forall q, s | AnnouncedAt(decode, payloads, q, s) && s.id == other
      ensures Precedes(places[n], q)
    {
      var m :| 0 <= m < |places| && places[m] == q;
      OneAt(decode, payloads, q, s, items[m]);
    }
    assert AnnouncedAt(decode, payloads, places[n], items[n]);
  }

  lemma LatestTableRecords(decode: Decoder, payloads: seq<Bytes>, table: seq<Reasoning>)
    requires IsLatestTable(table, Announced(decode, payloads))
    ensures Records(decode, payloads, table)
  {
    hide AnnouncedAt, Listed, LastAnnounced, AnnouncedBefore, SeenBefore, Occurs;
    var items, places := Announced(decode, payloads), AllPlaces(decode, payloads);
    ListedMeaning(decode, payloads);
    FirstSeenIs(items);
    FirstSeenDistinct(items);
    forall k | 0 <= k < |table|
      ensures LastAnnounced(decode, payloads, table[k])
    {
      var id := FirstSeen(items)[k];
      assert id in FirstSeen(items);
      LatestIs(items, id);
      var n: nat :| LatestAt(items, n, id, LatestContent(items, id));
      RowLast(decode, payloads, items, places, n);
    }
    forall place, r | AnnouncedAt(decode, payloads, place, r)
      ensures exists k :: 0 <= k < |table| && table[k].id == r.id
    {
      var n := IndexOf(decode, payloads, items, places, place, r);
      OccursAt(items, n);
      var k :| 0 <= k < |table| && FirstSeen(items)[k] == items[n].id;
      assert table[k].id == r.id;
    }
    forall k, l | 0 <= k < l < |table|
      ensures AnnouncedBefore(decode, payloads, table[k].id, table[l].id)
    {
      RowBefore(decode, payloads, items, places, FirstSeen(items)[k], FirstSeen(items)[l]);
    }
  }

  lemma OccursAt(items: seq<Reasoning>, n: nat)
    requires n < |items|
    ensures Occurs(items, items[n].id)
  {}

  lemma IndexOf(
    decode: Decoder, payloads: seq<Bytes>, items: seq<Reasoning>, places: seq<Place>, place: Place, r: Reasoning)
    returns (n: nat)
    requires Listed(decode, payloads, items, places) && AnnouncedAt(decode, payloads, place, r)
    ensures n < |items| && items[n] == r
  {
    hide AnnouncedAt;
    n :| n < |places| && places[n] == place;
    OneAt(decode, payloads, place, r, items[n]);
  }

  // ---------------------------------------------------------------- the failure

  /** The error an event reports: its own when it is an error with a code, else the one it wraps. */
  predicate Faults(event: Event, fault: Fault)
  {
    || (event.kind == "error" && event.code != "" && fault == Fault(event.code, event.message))
    || (event.kind == "error" && event.code == "" && event.error == Some(fault) && fault.code != "")
    || (event.kind == "" && event.error == Some(fault) && fault.code != "")
  }

  predicate FaultsAt(decode: Decoder, payloads: seq<Bytes>, i: int, fault: Fault)
  {
    0 <= i < |payloads| && Carried(decode, payloads[i]) && Faults(decode(payloads[i]).value, fault)
  }

  ghost predicate LastFaults(decode: Decoder, payloads: seq<Bytes>, failure: Option<Fault>)
  {
    match failure
    case None => forall i, fault :: !FaultsAt(decode, payloads, i, fault)
    case Some(fault) =>
      exists i :: FaultsAt(decode, payloads, i, fault) && forall j, other :: i < j ==> !FaultsAt(decode, payloads, j, other)
  }

  lemma {:induction false} LastFaultIs(decode: Decoder, payloads: seq<Bytes>)
    ensures LastFaults(decode, payloads, LastFault(decode, payloads))
    decreases |payloads|
  {
    hide DecodePayload, Carried, FaultOf, Faults;
    if payloads != [] {
      var rest := payloads[1..];
      LastFaultIs(decode, rest);
      CarriedIs(decode, payloads[0]);
      forall i, fault
        ensures i > 0 ==> (FaultsAt(decode, payloads, i, fault) <==> FaultsAt(decode, rest, i - 1, fault))
      {
        assert 0 < i < |payloads| ==> payloads[i] == rest[i - 1];
      }
      var later := LastFault(decode, rest);
      if later.Some? {
        var i :| FaultsAt(decode, rest, i, later.value) && forall j, other :: i < j ==> !FaultsAt(decode, rest, j, other);
        assert FaultsAt(decode, payloads, i + 1, later.value);
      } else {
        forall j, other | j > 0
          ensures !FaultsAt(decode, payloads, j, other)
        {
          assert !FaultsAt(decode, rest, j - 1, other);
        }
        if DecodePayload(decode, payloads[0]).Some? {
          FaultIs(decode(payloads[0]).value);
          if FaultOf(decode(payloads[0]).value).Some? {
            assert FaultsAt(decode, payloads, 0, FaultOf(decode(payloads[0]).value).value);
          }
        }
      }
    }
  }

  lemma FaultIs(event: Event)
    ensures forall fault :: Faults(event, fault) <==> FaultOf(event) == Some(fault)
  {}

  // ---------------------------------------------------------------- the observer

  /** Bytes of IDs and contents in a table. */
  function Weight(table: seq<Reasoning>): nat
  {
    if table == [] then 0 else |table[0].id| + |table[0].encrypted| + Weight(table[1..])
  }

  lemma {:induction false} WeightIs(table: seq<Reasoning>)
    ensures Weight(table) == TotalSize(table)
  {
    if table != [] {
      WeightIs(table[1..]);
    }
  }

  /**
    Without an error, however the stream was cut into chunks: the observer holds a row exactly
    for the reasoning items with ID and content that done events carry as their item and
    completed events in their output, the last content of each ID, first come first, within
    32 MiB; and the last error that an event reports.
   */
  lemma StreamIsRecorded(decode: Decoder, chunks: seq<Bytes>)
    requires ConsumedAll(decode, FRESH, chunks).err.None?
    ensures var st, payloads := ConsumedAll(decode, FRESH, chunks), Payloads(Lines(Flatten(chunks)));
            && Records(decode, payloads, st.reasoning) && LastFaults(decode, payloads, st.failure)
            && st.totalBytes == Weight(st.reasoning) <= 0x200_0000
  {
    hide ConsumedAll, Records, LastFaults, IsLatestTable, Announced, LastFault, Lines, Payloads, TotalSize, Weight;
    StreamMeaning(decode, chunks);
    var payloads := Payloads(Lines(Flatten(chunks)));
    LatestTableRecords(decode, payloads, ConsumedAll(decode, FRESH, chunks).reasoning);
    LastFaultIs(decode, payloads);
    WeightIs(ConsumedAll(decode, FRESH, chunks).reasoning);
  }

  /** The same in terms of what was sent. */
  lemma SentIsRecorded(decode: Decoder, events: seq<SentEvent>, chunks: seq<Bytes>)
    requires EventsSendable(events) && Flatten(chunks) == Sent(events)
    requires ConsumedAll(decode, FRESH, chunks).err.None?
    ensures var st := ConsumedAll(decode, FRESH, chunks);
            && Records(decode, AllValues(events), st.reasoning) && LastFaults(decode, AllValues(events), st.failure)
            && st.line == [] && st.data == []
  {
    hide ConsumedAll, Records, LastFaults, IsLatestTable, Announced, LastFault, Lines, Payloads, Pending, Unterminated;
    hide EventsSendable, Sent, AllValues, TotalSize, Weight;
    StreamMeaning(decode, chunks);
    StreamIsRecorded(decode, chunks);
    SentIsRead(events);
  }

  // ---------------------------------------------------------------- restoring

  /** The block is what a row of the table becomes when the message has no block for it. */
  predicate RowBlock(table: seq<Reasoning>, block: Block)
  {
    exists k :: 0 <= k < |table| && block == Block(Some(table[k].encrypted), table[k].id, false, "")
  }

  lemma RowBlockLater(table: seq<Reasoning>, block: Block)
    requires table != [] && RowBlock(table[1..], block)
    ensures RowBlock(table, block)
  {
    var k :| 0 <= k < |table[1..]| && block == Block(Some(table[1..][k].encrypted), table[1..][k].id, false, "");
    assert table[k + 1] == table[1..][k];
  }

  /** A block that restoring adds holds one row of the table and nothing else. */
  lemma {:induction false} RestoredAdds(blocks: seq<Block>, table: seq<Reasoning>)
    requires forall i, j :: 0 <= i < j < |table| ==> table[i].id != table[j].id
    ensures var after := Restored(blocks, table);
            |after| >= |blocks| && forall i :: |blocks| <= i < |after| ==> RowBlock(table, after[i])
    decreases |table|
  {
    hide RowBlock, RestoreRow;
    if table != [] {
      var next, rest := RestoreRow(blocks, table[0]), table[1..];
      assert forall i :: 0 <= i < |rest| ==> rest[i] == table[i + 1];
      RestoredAdds(next, rest);
      var after := Restored(next, rest);
      forall i | |blocks| <= i < |after|
        ensures RowBlock(table, after[i])
      {
        if i >= |next| {
          RowBlockLater(table, after[i]);
        } else {
          AddedStays(blocks, table, i);
        }
      }
      RowGrows(blocks, table[0]);
    }
  }

  lemma RowGrows(blocks: seq<Block>, r: Reasoning)
    ensures |blocks| <= |RestoreRow(blocks, r)| <= |blocks| + 1
  {}

  /** The block added for the first row keeps its content: no later row has its ID. */
  lemma AddedStays(blocks: seq<Block>, table: seq<Reasoning>, i: int)
    requires table != [] && |blocks| <= i < |RestoreRow(blocks, table[0])|
    requires forall i, j :: 0 <= i < j < |table| ==> table[i].id != table[j].id
    ensures i < |Restored(RestoreRow(blocks, table[0]), table[1..])|
    ensures RowBlock(table, Restored(RestoreRow(blocks, table[0]), table[1..])[i])
  {
    var r, next := table[0], RestoreRow(blocks, table[0]);
    RestoredCarriesTable(next, table[1..]);
    RestoreRowCarries(blocks, r, r);
    assert next == blocks + [Block(Some(r.encrypted), r.id, false, "")] && i == |blocks|;
    var after := Restored(next, table[1..]);
    hide Restored, RestoreRow;
    assert Carries(next, r) && forall k :: 0 <= k < |table[1..]| ==> table[1..][k].id != r.id;
    assert BlockOf(next, r.id) == i;
    BlockStays(next, after, r, i);
  }

  /** The first block of an ID stays the first when blocks keep their place and ID. */
  lemma BlockStays(before: seq<Block>, after: seq<Block>, r: Reasoning, i: nat)
    requires KeepsBlocks(before, after) && i < |before| && BlockOf(before, r.id) == i && Carries(after, r)
    ensures i < |after| && after[i] == before[i].(signature := Some(r.encrypted))
  {
    forall k | 0 <= k < i
      ensures !HoldsItem(after[k], r.id)
    {
      assert !HoldsItem(before[k], r.id);
    }
    BlockOfIs(after, r.id, i);
  }
}
