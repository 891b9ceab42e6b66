/** The event-line parser (`parse_event`, podproxy.py:39-76).

    A line of `podman events` output is a space-separated preamble followed
    by a parenthesised `key=value, key=value` attribute list.  The parser
    keeps only container `start` and `died` events.  It gives up (returns
    `None` in Python, `Discard` here) on other events, on a timestamp that
    does not parse and on an attribute without `=`.  It raises on a short
    preamble and on a missing `name` or `image` attribute. */
module EventParser {
  import opened Common
  import opened Text

  /** What `datetime.fromisoformat` produces.  The model never looks inside
      it: the conversion itself is the parameter `fromIso`. */
  datatype DateTime = DateTime(year: int, month: int, day: int, hour: int, minute: int,
                               second: int, microsecond: int, utcOffsetMinutes: int)

  /** The `EventInfo` named tuple. */
  datatype EventInfo = EventInfo(datetime: DateTime, kind: string, event: string, id: string,
                                 image: string, name: string, app: Option<string>)

  /** What `parse_event` does with a line: returns an event, returns `None`, or raises. */
  datatype Parsed = Event(info: EventInfo) | Discard | Raise(failure: Failure)

  const ContainerKind := "container"
  const Whitelist: seq<string> := ["died", "start"]

  /** Where Python puts a slice bound `i` in a string of length `n`. */
  function Bound(i: int, n: nat): (b: nat)
    ensures b <= n
    ensures 0 <= i <= n ==> b == i
    ensures -(n as int) <= i < 0 ==> b as int == n as int + i
  {
    if i < 0 then (if i + n < 0 then 0 else i + n) else if i > n then n else i
  }

  /** Python's `s[start:stop]`. */
  function Slice(s: string, start: int, stop: int): string
  {
    var b, e := Bound(start, |s|), Bound(stop, |s|);
    if b < e then s[b..e] else ""
  }

  /** Python's `s[0:n]`. */
  function Take(s: string, n: nat): string
  {
    if n <= |s| then s[..n] else s
  }

  /** The text before the first `(`, less the character just before it
      (podproxy.py:40-42).  Without a `(`, `find` gives -1 and this is the
      line less its last two characters. */
  function Preamble(line: string): string
  {
    Slice(line, 0, Find(line, "(") - 1)
  }

  /** The text after the first `(`, less the line's last character (podproxy.py:61). */
  function AttributeText(line: string): string
  {
    Slice(line, Find(line, "(") + 1, -1)
  }

  /** The string handed to `datetime.fromisoformat` (podproxy.py:55-56). */
  function TimestampText(tokens: seq<string>): string
    requires |tokens| >= 4
  {
    tokens[0] + " " + Take(tokens[1], 12) + tokens[3] + ":00"
  }

  /** `item.split("=")` followed by reading `item[0]` and `item[1]`: the
      pair, or `None` where `item[1]` raises an IndexError. */
  function KeyValue(item: string): Option<(string, string)>
  {
    var pieces := Split(item, "=");
    if |pieces| < 2 then None else Some((pieces[0], pieces[1]))
  }

  /** The dict comprehension of podproxy.py:64: a later pair with the same key overwrites an earlier one. */
  function AttrMap(pairs: seq<(string, string)>): (m: map<string, string>)
    ensures forall k :: k in m <==> HasKey(pairs, k)
    ensures forall i :: 0 <= i < |pairs| && LastWithKey(pairs, i) ==> pairs[i].0 in m && m[pairs[i].0] == pairs[i].1
  {
    if pairs == [] then map[]
    else
      var m := AttrMap(pairs[..|pairs| - 1]);
      AttrMapStep(pairs, m);
      m[pairs[|pairs| - 1].0 := pairs[|pairs| - 1].1]
  }

  /** Some pair has key `k`. */
  ghost predicate HasKey(pairs: seq<(string, string)>, k: string)
  {
    exists i :: 0 <= i < |pairs| && pairs[i].0 == k
  }

  /** Adding the last pair to the map of the others gives the map of all pairs. */
  lemma AttrMapStep(pairs: seq<(string, string)>, m: map<string, string>)
    requires |pairs| > 0
    requires forall k :: k in m <==> HasKey(pairs[..|pairs| - 1], k)
    requires forall i :: 0 <= i < |pairs| - 1 && LastWithKey(pairs[..|pairs| - 1], i) ==>
               pairs[i].0 in m && m[pairs[i].0] == pairs[i].1
    ensures var m' := m[pairs[|pairs| - 1].0 := pairs[|pairs| - 1].1];
            && (forall k :: k in m' <==> HasKey(pairs, k))
            && (forall i :: 0 <= i < |pairs| && LastWithKey(pairs, i) ==> pairs[i].0 in m' && m'[pairs[i].0] == pairs[i].1)
  {
    var n := |pairs| - 1;
    var init, last := pairs[..n], pairs[n];
    var m' := m[last.0 := last.1];
    forall k
      ensures k in m' <==> HasKey(pairs, k)
    {
      if HasKey(pairs, k) && k != last.0 {
        var i :| 0 <= i < |pairs| && pairs[i].0 == k;
        assert init[i].0 == k;
      }
      if HasKey(init, k) {
        var i :| 0 <= i < |init| && init[i].0 == k;
        assert pairs[i].0 == k;
      }
      assert pairs[n].0 == last.0;
    }
    forall i | 0 <= i < |pairs| && LastWithKey(pairs, i)
      ensures pairs[i].0 in m' && m'[pairs[i].0] == pairs[i].1
    {
      if i < n {
        assert pairs[i].0 != last.0;
        forall j | i < j < |init|
          ensures init[j].0 != init[i].0
        {
          assert init[j] == pairs[j];
        }
        assert LastWithKey(init, i);
      }
    }
  }

  /** No pair after index `i` has the key of pair `i`. */
  ghost predicate LastWithKey(pairs: seq<(string, string)>, i: int)
    requires 0 <= i < |pairs|
  {
    forall j :: i < j < |pairs| ==> pairs[j].0 != pairs[i].0
  }

  /** The items of the attribute list (podproxy.py:62). */
  function Items(text: string): seq<string>
  {
    Split(text, ", ")
  }

  /** The attribute dict of podproxy.py:62-67, or `None` when some item has no `=`. */
  function ParseAttributes(text: string): Option<map<string, string>>
  {
    ParseItems(Items(text))
  }

  /** The dict built from the items, or `None` when some item has no `=`. */
  function ParseItems(items: seq<string>): Option<map<string, string>>
  {
    if exists i | 0 <= i < |items| :: KeyValue(items[i]).None? then None
    else Some(AttrMap(seq(|items|, i requires 0 <= i < |items| => KeyValue(items[i]).value)))
  }

  /** `parse_event` on one (already stripped) line.  `fromIso` is
      `datetime.fromisoformat`, `None` where it raises. */
  function ParseEvent(line: string, fromIso: string -> Option<DateTime>): Parsed
  {
    var tokens := Split(Preamble(line), " ");
    if |tokens| < 5 then Raise(MissingToken(4))
    else if |tokens| < 6 then Raise(MissingToken(5))
    else if tokens[4] != ContainerKind then Discard
    else if tokens[5] !in Whitelist then Discard
    else
      match fromIso(TimestampText(tokens))
      case None => Discard
      case Some(when) =>
        match ParseAttributes(AttributeText(line))
        case None => Discard
        case Some(attrs) =>
          if |tokens| < 7 then Raise(MissingToken(6))
          else if "name" !in attrs then Raise(MissingAttribute("name"))
          else if "image" !in attrs then Raise(MissingAttribute("image"))
          else Event(EventInfo(when, tokens[4], tokens[5], tokens[6], attrs["image"], attrs["name"],
                               if "app" in attrs then Some(attrs["app"]) else None))
  }

  // ---------------------------------------------------------------------
  // What parse_event promises

  /** A preamble of fewer than six tokens raises at the first missing one;
      otherwise a resource kind other than `container` or an event outside
      the whitelist is discarded. */
  lemma ParseEventFilters(line: string, fromIso: string -> Option<DateTime>)
    ensures var tokens := Split(Preamble(line), " ");
            var r := ParseEvent(line, fromIso);
            && (|tokens| < 5 ==> r == Raise(MissingToken(4)))
            && (|tokens| == 5 ==> r == Raise(MissingToken(5)))
            && (|tokens| >= 6 && (tokens[4] != ContainerKind || tokens[5] !in Whitelist) ==> r == Discard)
  {
  }

  /** Every event returned is a container `start` or `died` event whose id
      is the seventh token and whose timestamp is the parsed reconstruction. */
  lemma ParseEventShape(line: string, fromIso: string -> Option<DateTime>)
    requires ParseEvent(line, fromIso).Event?
    ensures var tokens := Split(Preamble(line), " ");
            var e := ParseEvent(line, fromIso).info;
            && |tokens| >= 7
            && e.kind == ContainerKind && e.event in Whitelist && e.id == tokens[6]
            && fromIso(TimestampText(tokens)) == Some(e.datetime)
  {
  }

  /** A timestamp that `fromisoformat` rejects discards an event that passed the kind filters. */
  lemma ParseEventBadTimestamp(line: string, fromIso: string -> Option<DateTime>)
    requires var tokens := Split(Preamble(line), " ");
             |tokens| >= 6 && tokens[4] == ContainerKind && tokens[5] in Whitelist
             && fromIso(TimestampText(tokens)).None?
    ensures ParseEvent(line, fromIso) == Discard
  {
  }

  /** An item gives a pair exactly when it holds `=`. */
  lemma KeyValueSplit(item: string)
    ensures KeyValue(item).None? <==> '=' !in item
  {
    assert "=" == ['='];
    SplitSingle(item, '=');
  }

  /** The key is the text before the first `=` and the value the text from
      there up to the next `=` or the end, so a value containing `=` is cut
      short. */
  lemma KeyValueParts(item: string)
    requires '=' in item
    ensures KeyValue(item).Some?
    ensures var (key, value) := KeyValue(item).value;
            var k := |key|;
            && k < |item| && item[k] == '=' && '=' !in key && key == item[..k]
            && k + 1 + |value| <= |item| && item[k + 1..k + 1 + |value|] == value && '=' !in value
            && (k + 1 + |value| == |item| || item[k + 1 + |value|] == '=')
  {
    assert "=" == ['='];
    SplitFirstPiece(item, '=');
    SplitSecondPiece(item, '=');
  }

  /** The attribute list is rejected exactly when some item has no `=`;
      otherwise each key present maps to the value of its last item. */
  lemma ParseAttributesSpec(text: string)
    ensures var items := Items(text);
            && (ParseAttributes(text).None? <==> exists i :: 0 <= i < |items| && '=' !in items[i])
  {
    var items := Items(text);
    forall i | 0 <= i < |items| {
      KeyValueSplit(items[i]);
    }
  }

  /** An attribute item without `=` discards an event that passed the kind
      filters and the timestamp, before the seventh token is read, so even a
      six-token preamble is discarded rather than raising. */
  lemma ParseEventBadAttributes(line: string, fromIso: string -> Option<DateTime>)
    requires var tokens := Split(Preamble(line), " ");
             |tokens| >= 6 && tokens[4] == ContainerKind && tokens[5] in Whitelist
             && fromIso(TimestampText(tokens)).Some?
    requires var items := Items(AttributeText(line));
             exists i :: 0 <= i < |items| && '=' !in items[i]
    ensures ParseEvent(line, fromIso) == Discard
  {
    ParseAttributesSpec(AttributeText(line));
  }

  /** With the kind filters and the timestamp passed and every item holding
      `=`: a short preamble raises at token 6, then a missing `name`, then a
      missing `image` raises; otherwise the event carries the attribute
      values, and `app` is `None` exactly when no item has that key. */
  lemma ParseEventAttributes(line: string, fromIso: string -> Option<DateTime>)
    requires var tokens := Split(Preamble(line), " ");
             |tokens| >= 6 && tokens[4] == ContainerKind && tokens[5] in Whitelist
             && fromIso(TimestampText(tokens)).Some?
    requires ParseAttributes(AttributeText(line)).Some?
    ensures var tokens := Split(Preamble(line), " ");
            var attrs := ParseAttributes(AttributeText(line)).value;
            var r := ParseEvent(line, fromIso);
            && (|tokens| == 6 ==> r == Raise(MissingToken(6)))
            && (|tokens| >= 7 && "name" !in attrs ==> r == Raise(MissingAttribute("name")))
            && (|tokens| >= 7 && "name" in attrs && "image" !in attrs ==> r == Raise(MissingAttribute("image")))
            && (|tokens| >= 7 && "name" in attrs && "image" in attrs ==>
                  r.Event? && r.info.name == attrs["name"] && r.info.image == attrs["image"]
                  && (r.info.app.None? <==> "app" !in attrs)
                  && ("app" in attrs ==> r.info.app == Some(attrs["app"])))
  {
  }

  // ---------------------------------------------------------------------
  // Round trip: a line printed from an event parses back to it

  /** The text of one attribute item. */
  function ItemText(attr: (string, string)): string
  {
    attr.0 + "=" + attr.1
  }

  /** The texts of a list of attribute items. */
  function ItemTexts(attrs: seq<(string, string)>): seq<string>
  {
    seq(|attrs|, i requires 0 <= i < |attrs| => ItemText(attrs[i]))
  }

  /** A printed item splits back into its key and value. */
  lemma ItemRoundTrip(attr: (string, string))
    requires '=' !in attr.0 && '=' !in attr.1
    ensures KeyValue(ItemText(attr)) == Some(attr)
  {
    assert Join([attr.0, attr.1], "=") == ItemText(attr);
    SplitJoin([attr.0, attr.1], "=");
  }

  /** A printed attribute list parses back to the dict of its pairs. */
  lemma AttributesRoundTrip(attrs: seq<(string, string)>)
    requires |attrs| >= 1
    requires forall i :: 0 <= i < |attrs| ==> '=' !in attrs[i].0 && '=' !in attrs[i].1
                                              && ',' !in attrs[i].0 && ',' !in attrs[i].1
    ensures ParseAttributes(Join(ItemTexts(attrs), ", ")) == Some(AttrMap(attrs))
  {
    var texts := ItemTexts(attrs);
    forall i | 0 <= i < |texts|
      ensures ',' !in texts[i] && KeyValue(texts[i]) == Some(attrs[i])
    {
      assert texts[i] == attrs[i].0 + "=" + attrs[i].1;
      ItemRoundTrip(attrs[i]);
    }
    SplitJoin(texts, ", ");
    ParseItemsOf(texts, attrs);
  }

  /** Items that each give a pair build the dict of those pairs. */
  lemma ParseItemsOf(items: seq<string>, pairs: seq<(string, string)>)
    requires |items| == |pairs|
    requires forall i :: 0 <= i < |items| ==> KeyValue(items[i]) == Some(pairs[i])
    ensures ParseItems(items) == Some(AttrMap(pairs))
  {
    assert seq(|items|, i requires 0 <= i < |items| => KeyValue(items[i]).value) == pairs;
  }

  /** A line printed from well-formed tokens and attributes parses back to
      the event they describe: no token holds a space or `(`, no key or value
      holds `=` or `,`, and `name` and `image` are among the keys. */
  lemma ParseFormatted(tokens: seq<string>, attrs: seq<(string, string)>, fromIso: string -> Option<DateTime>)
    requires |tokens| >= 7 && |attrs| >= 1
    requires forall i :: 0 <= i < |tokens| ==> ' ' !in tokens[i] && '(' !in tokens[i]
    requires tokens[4] == ContainerKind && tokens[5] in Whitelist
    requires fromIso(TimestampText(tokens)).Some?
    requires forall i :: 0 <= i < |attrs| ==> '=' !in attrs[i].0 && '=' !in attrs[i].1
                                              && ',' !in attrs[i].0 && ',' !in attrs[i].1
    requires "name" in AttrMap(attrs) && "image" in AttrMap(attrs)
    ensures ParseEvent(FormatLine(tokens, attrs), fromIso)
            == Event(EventInfo(fromIso(TimestampText(tokens)).value, ContainerKind, tokens[5], tokens[6],
                               AttrMap(attrs)["image"], AttrMap(attrs)["name"],
                               if "app" in AttrMap(attrs) then Some(AttrMap(attrs)["app"]) else None))
  {
    var pre, body := Join(tokens, " "), Join(ItemTexts(attrs), ", ");
    var line := FormatLine(tokens, attrs);
    assert line == pre + " (" + body + ")";
    JoinExcludes(tokens, " ", '(');
    LineParts(pre, body);
    SplitJoin(tokens, " ");
    AttributesRoundTrip(attrs);
    ParseEventOf(line, tokens, AttrMap(attrs), fromIso);
  }

  /** `parse_event` once the tokens and the attribute dict are known and pass every check. */
  lemma ParseEventOf(line: string, tokens: seq<string>, attrs: map<string, string>, fromIso: string -> Option<DateTime>)
    requires Split(Preamble(line), " ") == tokens && ParseAttributes(AttributeText(line)) == Some(attrs)
    requires |tokens| >= 7 && tokens[4] == ContainerKind && tokens[5] in Whitelist
    requires fromIso(TimestampText(tokens)).Some?
    requires "name" in attrs && "image" in attrs
    ensures ParseEvent(line, fromIso)
            == Event(EventInfo(fromIso(TimestampText(tokens)).value, ContainerKind, tokens[5], tokens[6],
                               attrs["image"], attrs["name"], if "app" in attrs then Some(attrs["app"]) else None))
  {
  }

  /** The line `podman events` prints: preamble tokens, then the attributes in parentheses. */
  function FormatLine(tokens: seq<string>, attrs: seq<(string, string)>): string
  {
    Join(tokens, " ") + " (" + Join(ItemTexts(attrs), ", ") + ")"
  }

  /** The parser finds the preamble and the attribute text of a line shaped
      like `podman events` output, when the preamble holds no `(`. */
  lemma LineParts(pre: string, body: string)
    requires '(' !in pre
    ensures Preamble(pre + " (" + body + ")") == pre
    ensures AttributeText(pre + " (" + body + ")") == body
  {
    var line := pre + " (" + body + ")";
    assert OccursAt(line, "(", |pre| + 1) by {
      assert line[|pre| + 1..|pre| + 2] == "(";
    }
    forall j | 0 <= j < |pre| + 1
      ensures !OccursAt(line, "(", j)
    {
      assert line[j] == if j < |pre| then pre[j] else ' ';
    }
    FindFirst(line, "(", |pre| + 1);
    assert line[0..|pre|] == pre;
    assert line[|pre| + 2..|line| - 1] == body;
  }

  /** For any line in podman's shape, the tokens the parser sees are the
      printed ones: a preamble of four tokens (a timestamp written as one
      ISO-8601 token, say) raises at token 4, one of five at token 5, and an
      event that is not a container start or death is discarded. */
  lemma FormattedFilters(tokens: seq<string>, body: string, fromIso: string -> Option<DateTime>)
    requires |tokens| >= 1
    requires forall i :: 0 <= i < |tokens| ==> ' ' !in tokens[i] && '(' !in tokens[i]
    ensures var r := ParseEvent(Join(tokens, " ") + " (" + body + ")", fromIso);
            && (|tokens| < 5 ==> r == Raise(MissingToken(4)))
            && (|tokens| == 5 ==> r == Raise(MissingToken(5)))
            && (|tokens| >= 6 && (tokens[4] != ContainerKind || tokens[5] !in Whitelist) ==> r == Discard)
  {
    JoinExcludes(tokens, " ", '(');
    LineParts(Join(tokens, " "), body);
    SplitJoin(tokens, " ");
    ParseEventFilters(Join(tokens, " ") + " (" + body + ")", fromIso);
  }
}
