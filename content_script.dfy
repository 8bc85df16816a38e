/** The content script's message listener: it answers 'getFormHTML' with
    the markup of the page's first form, and 'fillFields' by writing each
    requested value into the element with the requested id, announcing every
    change with `input`, `change` and `blur` events, and replying with how
    many assignments were filled and how many failed. Every request gets
    exactly one reply.

    The page is a sequence of elements in document order; an element is
    addressed by its position. Dispatched events are recorded in a log, in
    dispatch order, instead of being delivered to listeners. */
module ContentScript {
  import opened Base
  import Text

  /** A page element, by the kind the listener tells apart, with the state
      it reads and writes.
      - `Input`: `inputType` is the `type` property (lower case, as the
        browser normalises it), `name` and `valueAttr` the `name` and `value`
        attributes when present, `value` the current value, `checked` the
        checkedness of a radio button or checkbox, `form` the position of
        its form owner (none when it has no form owner);
      - `Select`: the values of its options in order, and the index of the
        selected one (-1 when none is);
      - `TextArea`: its current value;
      - `Form`: a form, with its serialised markup (`outerHTML`);
      - `Other`: any other element. */
  datatype Control =
    | Input(inputType: string, name: Option<string>, valueAttr: Option<string>, value: string, checked: bool,
            form: Option<nat>)
    | Select(options: seq<string>, selectedIndex: int)
    | TextArea(value: string)
    | Form(outerHTML: string)
    | Other(tagName: string)

  /** An element and its `id` attribute ("" when it has none). */
  datatype Element = Element(id: string, control: Control)

  datatype EventType = InputEvent | ChangeEvent | BlurEvent

  /** One dispatched event: its target (a position in the page) and its type. */
  datatype Event = Event(target: nat, eventType: EventType)

  /** The page as the listener sees and changes it. */
  datatype Page = Page(nodes: seq<Element>, events: seq<Event>)

  datatype FieldMapping = FieldMapping(fieldId: string, value: string)

  /** The `fields` member of a request: absent (or any other falsy value),
      an array of assignments, or a truthy value that is not an array. */
  datatype Fields = NoFields | FieldList(items: seq<FieldMapping>) | NotAList

  datatype Request = Request(action: string, fields: Fields)

  /** The reply objects the listener sends:
      - `FormHtml`: `{html}`;
      - `NoForm`: `{html: '', error: NoFormMessage}`;
      - `FillResult`: `{success: true, filled, failed}`;
      - `ErrorReply`: `{error}`. */
  datatype Response =
    | FormHtml(html: string)
    | NoForm
    | FillResult(filled: nat, failed: nat)
    | ErrorReply(error: string)

  const NoFormMessage := "No form found on page"
  const UnknownActionMessage := "Unknown action"
  /** The `TypeError` message the engine raises when `fields` is truthy but
      has no `forEach` method. */
  const NotIterableMessage := "request.fields.forEach is not a function"

  /** The three events that announce a changed value, in dispatch order. */
  function Notify(target: nat): seq<Event> {
    [Event(target, InputEvent), Event(target, ChangeEvent), Event(target, BlurEvent)]
  }

  /** The first element, in document order, that satisfies `p`. */
  function FirstWhere(nodes: seq<Element>, p: Element -> bool): (r: Option<nat>)
    ensures r.Some? ==> r.value < |nodes| && p(nodes[r.value])
    ensures r.Some? ==> forall k :: 0 <= k < r.value ==> !p(nodes[k])
    ensures r.None? ==> forall k :: 0 <= k < |nodes| ==> !p(nodes[k])
  {
    if nodes == [] then None
    else if p(nodes[0]) then Some(0)
    else match FirstWhere(nodes[1..], p)
      case None => None
      case Some(k) => Some(k + 1)
  }

  /** `document.getElementById(id)`: the first element with that id; the
      empty id names no element. */
  function GetElementById(nodes: seq<Element>, id: string): Option<nat> {
    if id == "" then None else FirstWhere(nodes, (e: Element) => e.id == id)
  }

  /** `document.querySelector('form')` */
  function FirstForm(nodes: seq<Element>): Option<nat> {
    FirstWhere(nodes, (e: Element) => e.control.Form?)
  }

  predicate IsRadio(e: Element) {
    e.control.Input? && e.control.inputType == "radio"
  }

  /** `e` matches `input[type="radio"][name="<name>"][value="<value>"]`:
      the attribute selectors compare the `name` and `value` attributes,
      which must be present. */
  predicate MatchesRadio(e: Element, name: string, value: string) {
    IsRadio(e) && e.control.name == Some(name) && e.control.valueAttr == Some(value)
  }

  /** A string that, placed between the double quotes of an attribute
      selector, is read back as itself: it holds no double quote (which
      would end the quoted string), no backslash (which would start an
      escape) and no line break. The radio query is modelled only for such
      names and values; for any other the assignment counts as failed. */
  predicate Quotable(s: string) {
    forall i :: 0 <= i < |s| ==> s[i] != '"' && s[i] != '\\' && s[i] != '\n' && s[i] != '\r' && s[i] != '\U{000C}'
  }

  /** The radio query: the first radio button with that name and value. */
  function RadioQuery(nodes: seq<Element>, name: string, value: string): Option<nat> {
    FirstWhere(nodes, (e: Element) => MatchesRadio(e, name, value))
  }

  /** Radio buttons in the group named `name` whose form owner is `owner`
      (a radio button without a name, or with an empty one, is in a group
      of its own). */
  predicate InGroup(e: Element, name: string, owner: Option<nat>) {
    IsRadio(e) && name != "" && e.control.name == Some(name) && e.control.form == owner
  }

  /** `radio.checked = true`: the radio button at `j` becomes checked and
      the others of its group become unchecked. */
  function CheckRadio(nodes: seq<Element>, j: nat): (r: seq<Element>)
    requires j < |nodes| && IsRadio(nodes[j])
    ensures |r| == |nodes| && IsRadio(r[j]) && r[j].control.checked
    ensures r[j] == nodes[j].(control := nodes[j].control.(checked := true))
    ensures forall k :: 0 <= k < |nodes| && k != j ==>
      r[k] == (if InGroup(nodes[k], nodes[j].control.name.GetOr(""), nodes[j].control.form)
               then nodes[k].(control := nodes[k].control.(checked := false))
               else nodes[k])
  {
    var group := nodes[j].control.name.GetOr("");
    seq(|nodes|, k requires 0 <= k < |nodes| =>
      if k == j then nodes[j].(control := nodes[j].control.(checked := true))
      else if InGroup(nodes[k], group, nodes[j].control.form) then nodes[k].(control := nodes[k].control.(checked := false))
      else nodes[k])
  }

  /** The first option whose value is `value`, or -1: what assigning to a
      select's `value` selects. */
  function OptionIndex(options: seq<string>, value: string): (r: int)
    ensures -1 <= r < |options|
    ensures r >= 0 ==> options[r] == value && forall k :: 0 <= k < r ==> options[k] != value
    ensures r == -1 ==> forall k :: 0 <= k < |options| ==> options[k] != value
  {
    if options == [] then -1
    else if options[0] == value then 0
    else var k := OptionIndex(options[1..], value); if k == -1 then -1 else k + 1
  }

  // ----- Value sanitisation --------------------------------------------------

  predicate IsNewline(c: char) {
    c == '\n' || c == '\r'
  }

  /** "Strip newlines from the value": drops every LF and CR, keeping the
      other characters in order. */
  function StripNewlines(v: string): (r: string)
    ensures |r| <= |v|
    ensures forall i :: 0 <= i < |r| ==> !IsNewline(r[i])
    ensures (forall i :: 0 <= i < |v| ==> !IsNewline(v[i])) ==> r == v
  {
    if v == [] then [] else (if IsNewline(v[0]) then [] else [v[0]]) + StripNewlines(v[1..])
  }

  /** Stripping works character by character: it distributes over
      concatenation and keeps exactly the characters that are not newlines. */
  lemma {:induction false} StripNewlinesAppend(a: string, b: string)
    ensures StripNewlines(a + b) == StripNewlines(a) + StripNewlines(b)
  {
    if a != [] {
      var head := if IsNewline(a[0]) then [] else [a[0]];
      assert (a + b)[0] == a[0] && (a + b)[1..] == a[1..] + b;
      assert StripNewlines(a + b) == head + StripNewlines(a[1..] + b);
      StripNewlinesAppend(a[1..], b);
      assert StripNewlines(a) == head + StripNewlines(a[1..]);
    } else {
      assert a + b == b;
    }
  }

  /** On one character, stripping drops a newline and keeps anything else;
      with StripNewlinesAppend this fixes the result of every string. */
  lemma StripNewlinesChar(c: char)
    ensures StripNewlines([c]) == if IsNewline(c) then [] else [c]
  {
    assert [c][1..] == [];
  }

  /** ASCII whitespace: TAB, LF, FF, CR and SPACE. */
  predicate IsAsciiWhitespace(c: char) {
    c == '\t' || c == '\n' || c == '\U{000C}' || c == '\r' || c == ' '
  }

  /** Drops the leading ASCII whitespace. */
  function TrimLeftAscii(v: string): (r: string)
    ensures |r| <= |v| && r == v[|v| - |r|..]
    ensures forall i :: 0 <= i < |v| - |r| ==> IsAsciiWhitespace(v[i])
    ensures r == [] || !IsAsciiWhitespace(r[0])
  {
    if v != [] && IsAsciiWhitespace(v[0]) then TrimLeftAscii(v[1..]) else v
  }

  /** Drops the trailing ASCII whitespace. */
  function TrimRightAscii(v: string): (r: string)
    ensures |r| <= |v| && r == v[..|r|]
    ensures forall i :: |r| <= i < |v| ==> IsAsciiWhitespace(v[i])
    ensures r == [] || !IsAsciiWhitespace(r[|r| - 1])
  {
    if v != [] && IsAsciiWhitespace(v[|v| - 1]) then TrimRightAscii(v[..|v| - 1]) else v
  }

  /** "Strip leading and trailing ASCII whitespace". */
  function TrimAsciiWhitespace(v: string): string {
    TrimRightAscii(TrimLeftAscii(v))
  }

  /** Trimming leaves a string that starts and ends with other characters,
      a stretch of the original, and leaves such a string as it is. */
  lemma TrimAsciiSpec(v: string)
    ensures TrimAsciiWhitespace(v) == []
         || (!IsAsciiWhitespace(TrimAsciiWhitespace(v)[0])
             && !IsAsciiWhitespace(TrimAsciiWhitespace(v)[|TrimAsciiWhitespace(v)| - 1]))
    ensures TrimAsciiWhitespace(v) == v[|v| - |TrimLeftAscii(v)|..][..|TrimAsciiWhitespace(v)|]
    ensures v == [] || (!IsAsciiWhitespace(v[0]) && !IsAsciiWhitespace(v[|v| - 1])) ==> TrimAsciiWhitespace(v) == v
  {
    var l := TrimLeftAscii(v);
    var r := TrimRightAscii(l);
    TrimmedEnds(l, r);
  }

  /** A prefix of a string that starts with a non-space, itself ending in a
      non-space, starts and ends with one. */
  lemma TrimmedEnds(l: string, r: string)
    requires l == [] || !IsAsciiWhitespace(l[0])
    requires |r| <= |l| && r == l[..|r|]
    requires r == [] || !IsAsciiWhitespace(r[|r| - 1])
    ensures r == [] || (!IsAsciiWhitespace(r[0]) && !IsAsciiWhitespace(r[|r| - 1]))
  {
    if r != [] {
      assert r[0] == l[0];
    }
  }

  predicate IsDigit(c: char) {
    '0' <= c <= '9'
  }

  /** The end of the run of digits that starts at `i`. */
  function DigitsEnd(s: string, i: nat): (j: nat)
    requires i <= |s|
    ensures i <= j <= |s|
    ensures forall k :: i <= k < j ==> IsDigit(s[k])
    ensures j < |s| ==> !IsDigit(s[j])
    decreases |s| - i
  {
    if i < |s| && IsDigit(s[i]) then DigitsEnd(s, i + 1) else i
  }

  /** An exponent that starts at `c` and runs to the end: 'e' or 'E', an
      optional sign, and at least one digit. */
  predicate ExponentAt(s: string, c: nat)
    requires c < |s|
  {
    && (s[c] == 'e' || s[c] == 'E')
    && var d := if c + 1 < |s| && (s[c + 1] == '+' || s[c + 1] == '-') then c + 2 else c + 1;
       d < |s| && DigitsEnd(s, d) == |s|
  }

  /** A valid floating-point number: an optional '-', then digits, or
      digits (possibly none) followed by '.' and at least one digit, then an
      optional exponent. */
  predicate IsFloatingPoint(s: string) {
    var a := if |s| > 0 && s[0] == '-' then 1 else 0;
    var b := DigitsEnd(s, a);
    var fraction := b < |s| && s[b] == '.';
    var c := if fraction then DigitsEnd(s, b + 1) else b;
    && (if fraction then c > b + 1 else b > a)
    && (c == |s| || ExponentAt(s, c))
  }

  /** A valid number uses only digits, signs, the point and the exponent
      letters, so a grouping comma or a space makes it invalid. */
  lemma NumberCharset(s: string)
    requires IsFloatingPoint(s)
    ensures forall i :: 0 <= i < |s| ==> IsDigit(s[i]) || s[i] in "-+.eE"
  {
    var a := if |s| > 0 && s[0] == '-' then 1 else 0;
    var b := DigitsEnd(s, a);
    var fraction := b < |s| && s[b] == '.';
    var c := if fraction then DigitsEnd(s, b + 1) else b;
    forall i | 0 <= i < |s|
      ensures IsDigit(s[i]) || s[i] in "-+.eE"
    {
      if c < |s| && c + 1 < i {
        var d := if c + 1 < |s| && (s[c + 1] == '+' || s[c + 1] == '-') then c + 2 else c + 1;
        assert d <= i;
      }
    }
  }

  /** Every decimal rendering of a natural number is a valid number. */
  lemma NaturalsAreNumbers(n: nat)
    ensures IsFloatingPoint(Text.NatToString(n))
  {
    var s := Text.NatToString(n);
    assert s[0] != '-';
    DigitsRunToEnd(s, 0);
  }

  lemma {:induction false} DigitsRunToEnd(s: string, i: nat)
    requires i <= |s| && forall k :: i <= k < |s| ==> IsDigit(s[k])
    ensures DigitsEnd(s, i) == |s|
    decreases |s| - i
  {
    if i < |s| {
      DigitsRunToEnd(s, i + 1);
    }
  }

  function IsLeapYear(y: nat): bool {
    y % 400 == 0 || (y % 4 == 0 && y % 100 != 0)
  }

  /** The number of days of month `m` (1 to 12) of year `y`. */
  function DaysInMonth(y: nat, m: nat): nat {
    if m == 2 then (if IsLeapYear(y) then 29 else 28)
    else if m == 4 || m == 6 || m == 9 || m == 11 then 30
    else 31
  }

  /** A valid date string: a year of at least four digits greater than zero,
      '-', a two-digit month from 01 to 12, '-', and a two-digit day that
      exists in that month. */
  predicate IsDateString(s: string) {
    && |s| >= 10 && s[|s| - 6] == '-' && s[|s| - 3] == '-'
    && Text.IsDigits(s[..|s| - 6]) && Text.IsDigits(s[|s| - 5..|s| - 3]) && Text.IsDigits(s[|s| - 2..])
    && var y, m, d := Text.DecimalValue(s[..|s| - 6]), Text.DecimalValue(s[|s| - 5..|s| - 3]),
                      Text.DecimalValue(s[|s| - 2..]);
       1 <= y && 1 <= m <= 12 && 1 <= d <= DaysInMonth(y, m)
  }

  /** The value sanitisation algorithm of an input's type, applied when its
      `value` is set: text-like types drop newlines, URL and e-mail inputs
      also drop surrounding whitespace, and a number or date input keeps only
      a valid number or date and otherwise becomes empty. Other types keep
      the value as given. */
  function Sanitize(inputType: string, v: string): string {
    if inputType == "text" || inputType == "search" || inputType == "tel" || inputType == "password" then
      StripNewlines(v)
    else if inputType == "url" || inputType == "email" then
      TrimAsciiWhitespace(StripNewlines(v))
    else if inputType == "number" then
      if IsFloatingPoint(v) then v else ""
    else if inputType == "date" then
      if IsDateString(v) then v else ""
    else v
  }

  /** Sanitising twice gives what sanitising once gives. */
  lemma SanitizeIdempotent(inputType: string, v: string)
    ensures Sanitize(inputType, Sanitize(inputType, v)) == Sanitize(inputType, v)
  {
    if inputType == "text" || inputType == "search" || inputType == "tel" || inputType == "password" {
      StripNewlinesTwice(v);
    } else if inputType == "url" || inputType == "email" {
      TrimStrippedTwice(v);
    } else if inputType == "number" {
      assert !IsFloatingPoint("");
    }
  }

  /** A date input refuses a date written "01/15/1990". */
  lemma DateRefused()
    ensures Sanitize("date", "01/15/1990") == ""
  {
    assert "01/15/1990"[4] == '5';
  }

  /** A number input refuses a grouped "1,000". */
  lemma NumberExample()
    ensures Sanitize("number", "1,000") == ""
  {
    assert DigitsEnd("1,000", 0) == 1;
  }

  /** A text input drops the line break of "a\nb". */
  lemma TextExample()
    ensures Sanitize("text", "a\nb") == "ab"
  {
    assert "a\nb"[1..] == "\nb" && "\nb"[1..] == "b" && "b"[1..] == "";
  }

  lemma StripNewlinesTwice(v: string)
    ensures StripNewlines(StripNewlines(v)) == StripNewlines(v)
  {
  }

  lemma TrimStrippedTwice(v: string)
    ensures TrimAsciiWhitespace(StripNewlines(TrimAsciiWhitespace(StripNewlines(v))))
         == TrimAsciiWhitespace(StripNewlines(v))
  {
    var trimmed := TrimAsciiWhitespace(StripNewlines(v));
    TrimKeepsNoNewline(StripNewlines(v));
    assert StripNewlines(trimmed) == trimmed;
    TrimAsciiSpec(trimmed);
  }

  /** Trimming a string without newlines leaves none. */
  lemma TrimKeepsNoNewline(s: string)
    requires forall i :: 0 <= i < |s| ==> !IsNewline(s[i])
    ensures forall i :: 0 <= i < |TrimAsciiWhitespace(s)| ==> !IsNewline(TrimAsciiWhitespace(s)[i])
  {
    var l := TrimLeftAscii(s);
    var r := TrimRightAscii(l);
    forall i | 0 <= i < |r|
      ensures !IsNewline(r[i])
    {
      assert r[i] == l[i] == s[|s| - |l| + i];
    }
  }

  /** Input types whose `value` is in the "default" or "default/on" mode:
      setting `value` sets the `value` attribute. */
  predicate ValueIsAttribute(inputType: string) {
    inputType == "hidden" || inputType == "checkbox" || inputType == "submit"
    || inputType == "reset" || inputType == "button" || inputType == "image"
  }

  /** The element after `element.value = value`, for an input, select or
      text area; an input stores the sanitised value, and one whose value is
      its `value` attribute also rewrites that attribute. */
  function WithValue(e: Element, value: string): Element
    requires e.control.Input? || e.control.Select? || e.control.TextArea?
  {
    match e.control
    case Select(options, _) => e.(control := Select(options, OptionIndex(options, value)))
    case Input(inputType, _, _, _, _, _) =>
      if ValueIsAttribute(inputType) then e.(control := e.control.(value := value, valueAttr := Some(value)))
      else e.(control := e.control.(value := Sanitize(inputType, value)))
    case TextArea(_) => e.(control := TextArea(value))
  }

  /** One pass of the `forEach` body: the page after handling assignment `f`
      and whether it counted as filled. A failed assignment changes nothing;
      a filled one changes one element (or one radio group) and dispatches
      the three events on it. Failures are: no element with the id, no radio
      button with the element's name and the requested value, a name or value
      that is not quotable (see Quotable), a non-empty value for
      a file input (the assignment throws), and any other kind of element. */
  function FillField(p: Page, f: FieldMapping): (r: (Page, bool))
    ensures !r.1 ==> r.0 == p
    ensures |r.0.nodes| == |p.nodes|
    ensures r.1 ==> exists t :: 0 <= t < |p.nodes| && r.0.events == p.events + Notify(t)
  {
    match GetElementById(p.nodes, f.fieldId)
    case None => (p, false)
    case Some(i) =>
      var e := p.nodes[i];
      match e.control
      case Input(inputType, name, _, _, _, _) =>
        if inputType == "radio" then
          var group := name.GetOr("");
          if !Quotable(group) || !Quotable(f.value) then (p, false)
          else match RadioQuery(p.nodes, group, f.value)
            case None => (p, false)
            case Some(j) => (Page(CheckRadio(p.nodes, j), p.events + Notify(j)), true)
        else if inputType == "file" && f.value != "" then (p, false)
        else (Page(p.nodes[i := WithValue(e, f.value)], p.events + Notify(i)), true)
      case Select(_, _) => (Page(p.nodes[i := WithValue(e, f.value)], p.events + Notify(i)), true)
      case TextArea(_) => (Page(p.nodes[i := WithValue(e, f.value)], p.events + Notify(i)), true)
      case _ => (p, false)
  }

  /** The whole `forEach`: the page after all assignments, in order, and the
      `filled` and `failed` counters. */
  function FillAll(p: Page, fields: seq<FieldMapping>): (r: (Page, nat, nat))
  {
    if fields == [] then (p, 0, 0)
    else
      var (q, filled, failed) := FillAll(p, fields[..|fields| - 1]);
      var (q', ok) := FillField(q, fields[|fields| - 1]);
      if ok then (q', filled + 1, failed) else (q', filled, failed + 1)
  }

  /** The three events of the k-th filled assignment, in order, on one
      target. */
  predicate NotifiedInTriples(events: seq<Event>) {
    |events| % 3 == 0 &&
    forall m :: 0 <= m < |events| / 3 ==>
      events[3 * m..3 * m + 3] == Notify(events[3 * m].target)
  }

  lemma NotifiedInTriplesAppend(a: seq<Event>, t: nat)
    requires NotifiedInTriples(a)
    ensures NotifiedInTriples(a + Notify(t))
  {
    var b := a + Notify(t);
    forall m | 0 <= m < |b| / 3 ensures b[3 * m..3 * m + 3] == Notify(b[3 * m].target) {
      if m < |a| / 3 {
        assert b[3 * m..3 * m + 3] == a[3 * m..3 * m + 3];
      } else {
        assert b[3 * m..3 * m + 3] == Notify(t);
      }
    }
  }

  /** Counting: every assignment counts exactly once, as filled or as failed;
      the page keeps its elements; each filled assignment, and nothing else,
      adds `input`, `change`, `blur` on one element, in that order. */
  lemma {:induction false} FillAllCounts(p: Page, fields: seq<FieldMapping>)
    ensures var (q, filled, failed) := FillAll(p, fields);
      && filled + failed == |fields|
      && |q.nodes| == |p.nodes|
      && p.events <= q.events
      && |q.events| == |p.events| + 3 * filled
      && NotifiedInTriples(q.events[|p.events|..])
  {
    if fields != [] {
      var init := fields[..|fields| - 1];
      FillAllCounts(p, init);
      var (q, filled, failed) := FillAll(p, init);
      var (q', ok) := FillField(q, fields[|fields| - 1]);
      if ok {
        var t :| 0 <= t < |q.nodes| && q'.events == q.events + Notify(t);
        NotifiedInTriplesAppend(q.events[|p.events|..], t);
        assert q'.events[|p.events|..] == q.events[|p.events|..] + Notify(t);
      }
    }
  }

  /** A failed assignment does not stop the batch: the assignments after it
      are handled exactly as if it had not been there, and it adds one to
      `failed`. */
  lemma {:induction false} FailureDoesNotStopBatch(p: Page, f: FieldMapping, rest: seq<FieldMapping>)
    requires !FillField(p, f).1
    ensures var (q, filled, failed) := FillAll(p, rest);
      FillAll(p, [f] + rest) == (q, filled, failed + 1)
  {
    if rest == [] {
      assert ([f] + rest)[..0] == [];
    } else {
      var init := rest[..|rest| - 1];
      FailureDoesNotStopBatch(p, f, init);
      assert ([f] + rest)[..|[f] + rest| - 1] == [f] + init;
    }
  }

  /** A radio-button assignment. It succeeds exactly when the name and the
      value are quotable and some radio button carries the element's name and the
      requested value; the first such button becomes checked (the rest of its
      group unchecked) and receives the three events; no other element
      changes. Otherwise nothing changes. */
  lemma RadioAssignment(p: Page, f: FieldMapping, i: nat)
    requires GetElementById(p.nodes, f.fieldId) == Some(i)
    requires IsRadio(p.nodes[i])
    ensures var name := p.nodes[i].control.name.GetOr("");
      var (q, ok) := FillField(p, f);
      && (ok <==> Quotable(name) && Quotable(f.value) &&
                  exists j :: 0 <= j < |p.nodes| && MatchesRadio(p.nodes[j], name, f.value))
      && (ok ==> exists j :: 0 <= j < |p.nodes| && RadioQuery(p.nodes, name, f.value) == Some(j) &&
                   q.nodes == CheckRadio(p.nodes, j) && q.events == p.events + Notify(j))
  {
    var name := p.nodes[i].control.name.GetOr("");
    var found := RadioQuery(p.nodes, name, f.value);
    if found.None? {
      assert forall j :: 0 <= j < |p.nodes| ==> !MatchesRadio(p.nodes[j], name, f.value);
    }
  }

  /** An assignment to a non-radio input, a select or a text area: the
      element's value becomes the requested one (an input's after
      sanitising it for its type), the three events follow on that element,
      and it counts as filled (unless a non-empty value is written to a file
      input, which throws and counts as failed). */
  lemma ValueAssignment(p: Page, f: FieldMapping, i: nat)
    requires GetElementById(p.nodes, f.fieldId) == Some(i)
    requires var c := p.nodes[i].control;
      (c.Input? && c.inputType != "radio" && (c.inputType == "file" ==> f.value == "")) || c.Select? || c.TextArea?
    ensures FillField(p, f) == (Page(p.nodes[i := WithValue(p.nodes[i], f.value)], p.events + Notify(i)), true)
    ensures p.nodes[i].control.Input? ==>
      FillField(p, f).0.nodes[i].control.value == Sanitize(p.nodes[i].control.inputType, f.value)
    ensures p.nodes[i].control.TextArea? ==> FillField(p, f).0.nodes[i].control.value == f.value
    ensures p.nodes[i].control.Input? ==>
      FillField(p, f).0.nodes[i].control.valueAttr
        == if ValueIsAttribute(p.nodes[i].control.inputType) then Some(f.value) else p.nodes[i].control.valueAttr
  {
  }

  /** An assignment fails, changing nothing, when no element has the id,
      when the element is neither an input, a select nor a text area, and
      when a non-empty value is written to a file input. */
  lemma MissingOrUnsupportedFails(p: Page, f: FieldMapping)
    ensures GetElementById(p.nodes, f.fieldId).None? ==> FillField(p, f) == (p, false)
    ensures match GetElementById(p.nodes, f.fieldId)
      case None => true
      case Some(i) =>
        (p.nodes[i].control.Form? || p.nodes[i].control.Other?
         || (p.nodes[i].control.Input? && p.nodes[i].control.inputType == "file" && f.value != ""))
        ==> FillField(p, f) == (p, false)
  {
  }

  /** What the listener does with one request: the page afterwards, the
      reply it sends, and what it returns (true keeps the channel open). */
  datatype Handled = Handled(page: Page, reply: Response, keepOpen: bool)

  function Handle(p: Page, request: Request): Handled {
    if request.action == "getFormHTML" then
      match FirstForm(p.nodes)
      case Some(i) => Handled(p, FormHtml(p.nodes[i].control.outerHTML), true)
      case None => Handled(p, NoForm, true)
    else if request.action == "fillFields" && !request.fields.NoFields? then
      match request.fields
      case FieldList(items) =>
        var (q, filled, failed) := FillAll(p, items);
        Handled(q, FillResult(filled, failed), true)
      case _ => Handled(p, ErrorReply(NotIterableMessage), true)
    else
      Handled(p, ErrorReply(UnknownActionMessage), false)
  }

  /** A 'fillFields' request with an array of assignments is answered with
      `{success: true, filled, failed}` where the counts add up to the number
      of assignments, and the channel is kept open. */
  lemma FillFieldsReply(p: Page, items: seq<FieldMapping>)
    ensures var h := Handle(p, Request("fillFields", FieldList(items)));
      && h.keepOpen
      && h.reply.FillResult?
      && h.reply.filled + h.reply.failed == |items|
      && |h.page.events| == |p.events| + 3 * h.reply.filled
  {
    FillAllCounts(p, items);
  }

  /** 'getFormHTML' answers with the markup of the first form in document
      order, or with the
      no-form reply when there is none; the page is not changed and the
      channel is kept open. */
  lemma GetFormReply(p: Page, fields: Fields)
    ensures var h := Handle(p, Request("getFormHTML", fields));
      && h.keepOpen && h.page == p
      && (h.reply == NoForm <==> forall k :: 0 <= k < |p.nodes| ==> !p.nodes[k].control.Form?)
      && (h.reply.FormHtml? ==> exists k :: 0 <= k < |p.nodes| && p.nodes[k].control.Form? &&
                                 h.reply.html == p.nodes[k].control.outerHTML &&
                                 forall k' :: 0 <= k' < k ==> !p.nodes[k'].control.Form?)
  {
  }

  /** A 'fillFields' request whose `fields` is truthy but not an array
      throws in `forEach`: the listener's catch replies with the thrown
      message, changes nothing, and keeps the channel open. */
  lemma NotAListReply(p: Page)
    ensures Handle(p, Request("fillFields", NotAList)) == Handled(p, ErrorReply(NotIterableMessage), true)
  {
  }

  /** Any other request, including 'fillFields' without `fields`, gets
      exactly `{error: 'Unknown action'}`, changes nothing, and lets the
      channel close. */
  lemma UnknownActionReply(p: Page, request: Request)
    requires request.action != "getFormHTML"
    requires request.action != "fillFields" || request.fields.NoFields?
    ensures Handle(p, request) == Handled(p, ErrorReply(UnknownActionMessage), false)
  {
  }

  /** The browser tab the script runs in: the page's elements, the events
      dispatched on them, and the replies sent back over the channel. */
  class Tab {
    var nodes: seq<Element>
    var events: seq<Event>
    var replies: seq<Response>

    constructor (nodes: seq<Element>)
      ensures this.nodes == nodes && events == [] && replies == []
    {
      this.nodes := nodes;
      events := [];
      replies := [];
    }

    function CurrentPage(): Page
      reads this
    {
      Page(nodes, events)
    }

    /** `input`, `change` and `blur`, dispatched in that order on `target`. */
    method DispatchChange(target: nat)
      modifies this
      ensures events == old(events) + Notify(target)
      ensures nodes == old(nodes) && replies == old(replies)
    {
      events := events + [Event(target, InputEvent)];
      events := events + [Event(target, ChangeEvent)];
      events := events + [Event(target, BlurEvent)];
    }

    /** The `forEach` body for one assignment; `ok` is true when it counted
      as filled. */
    method FillOne(field: FieldMapping) returns (ok: bool)
      modifies this
      ensures (CurrentPage(), ok) == FillField(old(CurrentPage()), field)
      ensures replies == old(replies)
    {
      var found := GetElementById(nodes, field.fieldId);
      if found.None? {
        return false;
      }
      var i := found.value;
      var element := nodes[i];
      match element.control {
        case Input(inputType, name, _, _, _, _) =>
          if inputType == "radio" {
            var group := name.GetOr("");
            if !Quotable(group) || !Quotable(field.value) {
              return false;
            }
            var radio := RadioQuery(nodes, group, field.value);
            if radio.Some? {
              nodes := CheckRadio(nodes, radio.value);
              DispatchChange(radio.value);
              ok := true;
            } else {
              ok := false;
            }
          } else if inputType == "file" && field.value != "" {
            ok := false;
          } else {
            nodes := nodes[i := WithValue(element, field.value)];
            DispatchChange(i);
            ok := true;
          }
        case Select(_, _) =>
          nodes := nodes[i := WithValue(element, field.value)];
          DispatchChange(i);
          ok := true;
        case TextArea(_) =>
          nodes := nodes[i := WithValue(element, field.value)];
          DispatchChange(i);
          ok := true;
        case _ =>
          ok := false;
      }
    }

    /** `fields.forEach(...)`: fills the assignments in order, counting
        the filled and the failed ones. */
    method FillEach(items: seq<FieldMapping>) returns (filled: nat, failed: nat)
      modifies this
      ensures (CurrentPage(), filled, failed) == FillAll(old(CurrentPage()), items)
      ensures replies == old(replies)
    {
      filled, failed := 0, 0;
      var i := 0;
      while i < |items|
        invariant 0 <= i <= |items|
        invariant (CurrentPage(), filled, failed) == FillAll(old(CurrentPage()), items[..i])
        invariant replies == old(replies)
      {
        assert items[..i + 1][..i] == items[..i];
        ghost var before := CurrentPage();
        var ok := FillOne(items[i]);
        assert FillAll(old(CurrentPage()), items[..i + 1])
            == (var (q', ok') := FillField(before, items[i]);
                if ok' then (q', filled + 1, failed) else (q', filled, failed + 1));
        if ok {
          filled := filled + 1;
        } else {
          failed := failed + 1;
        }
        i := i + 1;
      }
      assert items[..i] == items;
    }

    /** The listener: handles `request`, sends exactly one reply, and
      returns whether the channel stays open. */
    method OnMessage(request: Request) returns (keepOpen: bool)
      modifies this
      ensures |replies| == |old(replies)| + 1 && replies[..|old(replies)|] == old(replies)
      ensures Handled(CurrentPage(), replies[|replies| - 1], keepOpen) == Handle(old(CurrentPage()), request)
    {
      if request.action == "getFormHTML" {
        var form := FirstForm(nodes);
        if form.Some? {
          replies := replies + [FormHtml(nodes[form.value].control.outerHTML)];
        } else {
          replies := replies + [NoForm];
        }
        return true;
      }
      if request.action == "fillFields" && !request.fields.NoFields? {
        if request.fields.NotAList? {
          replies := replies + [ErrorReply(NotIterableMessage)];
          return true;
        }
        var filled, failed := FillEach(request.fields.items);
        replies := replies + [FillResult(filled, failed)];
        return true;
      }
      replies := replies + [ErrorReply(UnknownActionMessage)];
      return false;
    }
  }
}
