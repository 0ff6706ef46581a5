/**
 * The known contracts of config.yaml (apps/indexer/scripts/knownConfig.ts): the rewriter of the generated blocks and
 * the extractor that reads them back. The source's patterns are read as predicates on lines.
 */
module KnownConfig {
  import opened KnownAddresses
  import opened Options

  // in parts because the verifier is slow on long literals
  const BEGIN :=
    "# generated: " + "known contracts " + "(scripts/knownContracts.ts), " + "do not edit " + "until the end "
    + "marker"
  const END := "# end generated"
  const ITEM_INDENT := "          "
  const KEY := "        address:"
  const EMPTY_KEY := "        address: []"

  /* ---------------------------------------------------------------- lines */

  predicate Space(c: char) {
    || c == ' ' || '\t' <= c <= '\r' || c == '\U{A0}' || c == '\U{1680}' || '\U{2000}' <= c <= '\U{200A}'
    || c == '\U{2028}' || c == '\U{2029}' || c == '\U{202F}' || c == '\U{205F}' || c == '\U{3000}' || c == '\U{FEFF}'
  }

  predicate Digit(c: char) { '0' <= c <= '9' }
  predicate LowerHex(c: char) { Digit(c) || 'a' <= c <= 'f' }
  predicate Hex(c: char) { LowerHex(c) || 'A' <= c <= 'F' }
  predicate Word(c: char) { Digit(c) || 'a' <= c <= 'z' || 'A' <= c <= 'Z' || c == '_' }

  predicate Starts(line: string, prefix: string) { |prefix| <= |line| && line[..|prefix|] == prefix }

  /** The longest run of digits, or of word characters, from the start. */
  function DigitRun(text: string): (n: nat)
    ensures n <= |text|
  {
    if text == "" || !Digit(text[0]) then 0 else 1 + DigitRun(text[1..])
  }

  function WordRun(text: string): (n: nat)
    ensures n <= |text|
  {
    if text == "" || !Word(text[0]) then 0 else 1 + WordRun(text[1..])
  }

  predicate Blank(text: string) { forall i | 0 <= i < |text| :: Space(text[i]) }

  function Decimal(digits: string): nat {
    if digits == "" then 0
    else
      var last := digits[|digits| - 1];
      10 * Decimal(digits[..|digits| - 1]) + (if Digit(last) then last as int - '0' as int else 0)
  }

  const CHAIN := "  - id: "
  const NAME := "      - name: "
  const BULLET := "          - "

  /** `  - id: <digits>` up to a word's end. */
  function ChainId(line: string): Option<nat> {
    if !Starts(line, CHAIN) then None else
    var rest := line[|CHAIN|..];
    var n := DigitRun(rest);
    if n == 0 || (n < |rest| && Word(rest[n])) then None else Some(Decimal(rest[..n]))
  }

  /** `      - name: <word>`, nothing after it. */
  function ContractName(line: string): Option<string> {
    if !Starts(line, NAME) then None else
    var rest := line[|NAME|..];
    var n := WordRun(rest);
    if n == 0 || !Blank(rest[n..]) then None else Some(rest[..n])
  }

  predicate AddressKey(line: string) {
    Starts(line, KEY) && (Blank(line[|KEY|..]) || (Starts(line, EMPTY_KEY) && Blank(line[|EMPTY_KEY|..])))
  }

  predicate Item(line: string) { Starts(line, ITEM_INDENT) }

  function TrimStart(text: string): string { if text != "" && Space(text[0]) then TrimStart(text[1..]) else text }

  function TrimEnd(text: string): string {
    if text != "" && Space(text[|text| - 1]) then TrimEnd(text[..|text| - 1]) else text
  }

  function Trim(text: string): string { TrimEnd(TrimStart(text)) }

  predicate IsBegin(line: string) { Trim(line) == BEGIN }
  predicate IsEnd(line: string) { Trim(line) == END }

  predicate IsAddress(text: string) {
    |text| == 42 && text[0] == '0' && text[1] == 'x' && forall i | 2 <= i < 42 :: Hex(text[i])
  }

  predicate IsLowerAddress(text: string) {
    |text| == 42 && text[0] == '0' && text[1] == 'x' && forall i | 2 <= i < 42 :: LowerHex(text[i])
  }

  /** `          - 0x<40 hex digits>` up to a word's end. */
  function Address(line: string): Option<string> {
    if !Starts(line, BULLET) then None else
    var rest := line[|BULLET|..];
    if |rest| >= 42 && IsAddress(rest[..42]) && (|rest| == 42 || !Word(rest[42])) then Some(rest[..42]) else None
  }

  /* ---------------------------------------------------------------- text and lines */

  /** The lines of a text: at least one. */
  function Lines(text: string): (lines: seq<string>)
    ensures lines != []
  {
    if text == "" then [""]
    else if text[0] == '\n' then [""] + Lines(text[1..])
    else var rest := Lines(text[1..]); [[text[0]] + rest[0]] + rest[1..]
  }

  function Joined(lines: seq<string>): string {
    if lines == [] then "" else if |lines| == 1 then lines[0] else lines[0] + "\n" + Joined(lines[1..])
  }

  predicate OneLine(line: string) { '\n' !in line }

  ghost predicate AreLines(lines: seq<string>) { forall i | 0 <= i < |lines| :: OneLine(lines[i]) }

  lemma {:induction false} LinesOfLine(line: string, rest: string)
    requires OneLine(line)
    ensures Lines(line + "\n" + rest) == [line] + Lines(rest)
    ensures Lines(line) == [line]
    decreases |line|
  {
    if line == "" {
      assert line + "\n" + rest == "\n" + rest && ("\n" + rest)[1..] == rest;
    } else {
      LinesOfLine(line[1..], rest);
      assert (line + "\n" + rest)[1..] == line[1..] + "\n" + rest;
      assert [line[0]] + line[1..] == line;
      assert line[0] in line;
    }
  }

  /** Splitting undoes joining, for lines without line breaks, at least one. */
  lemma {:induction false} LinesOfJoined(lines: seq<string>)
    requires lines != [] && AreLines(lines)
    ensures Lines(Joined(lines)) == lines
    decreases |lines|
  {
    assert OneLine(lines[0]);
    if |lines| == 1 {
      LinesOfLine(lines[0], "");
    } else {
      forall i | 0 <= i < |lines[1..]| ensures OneLine(lines[1..][i]) { assert lines[1..][i] == lines[i + 1]; }
      LinesOfJoined(lines[1..]);
      LinesOfLine(lines[0], Joined(lines[1..]));
    }
  }

  lemma {:induction false} LinesAreLines(text: string)
    ensures AreLines(Lines(text))
    decreases |text|
  {
    if text != "" { LinesAreLines(text[1..]); }
  }

  /* ---------------------------------------------------------------- the rewriter */

  datatype Context = Context(chain: Option<nat>, contract: Option<string>)

  /** Where a line takes the rewriter: a chain's line forgets the contract. */
  function Entered(c: Context, line: string): Context {
    var id := ChainId(line);
    var c1 := if id.Some? then Context(id, None) else c;
    var name := if c1.chain.Some? then ContractName(line) else None;
    if name.Some? then c1.(contract := name) else c1
  }

  predicate StartsList(c: Context, line: string) { c.chain.Some? && c.contract.Some? && AddressKey(line) }

  function KnownAt(known: Known, c: Context): seq<string> {
    if c.chain.Some? && c.contract.Some? then ListOf(known, (c.chain.value, c.contract.value)) else []
  }

  /** How many of the first lines are deeper than the key: the list's body. */
  function BodyLength(lines: seq<string>): (n: nat)
    ensures n <= |lines|
  {
    if lines == [] || !Item(lines[0]) then 0 else 1 + BodyLength(lines[1..])
  }

  /** The body without its generated block and markers. */
  function Hand(body: seq<string>, inGenerated: bool): seq<string> {
    if body == [] then []
    else if IsBegin(body[0]) then Hand(body[1..], true)
    else if IsEnd(body[0]) then Hand(body[1..], false)
    else (if inGenerated then [] else [body[0]]) + Hand(body[1..], inGenerated)
  }

  function HandAddresses(hand: seq<string>): seq<string> {
    if hand == [] then []
    else (if Address(hand[0]).Some? then [Lower(Address(hand[0]).value)] else []) + HandAddresses(hand[1..])
  }

  /** The known addresses that are not listed by hand. */
  function Unlisted(known: seq<string>, listed: seq<string>): seq<string> {
    if known == [] then [] else (if known[0] in listed then [] else [known[0]]) + Unlisted(known[1..], listed)
  }

  function AddressLines(addresses: seq<string>): seq<string> {
    if addresses == [] then [] else [BULLET + addresses[0]] + AddressLines(addresses[1..])
  }

  function Block(generated: seq<string>): seq<string> {
    if generated == [] then [] else [ITEM_INDENT + BEGIN] + AddressLines(generated) + [ITEM_INDENT + END]
  }

  predicate AllLower(addresses: seq<string>) { forall i | 0 <= i < |addresses| :: IsLowerAddress(addresses[i]) }

  function Generated(hand: seq<string>, known: seq<string>): seq<string> { Unlisted(known, HandAddresses(hand)) }

  /** A list rewritten, or refused: only lowercase addresses are written. */
  function List(hand: seq<string>, known: seq<string>): Option<seq<string>> {
    var generated := Generated(hand, known);
    if hand == [] && generated == [] then Some([EMPTY_KEY])
    else if !AllLower(generated) then None
    else Some([KEY] + hand + Block(generated))
  }

  function Prepended(head: Option<seq<string>>, tail: Option<seq<string>>): Option<seq<string>> {
    if head.Some? && tail.Some? then Some(head.value + tail.value) else None
  }

  function Merge(lines: seq<string>, c: Context, known: Known): Option<seq<string>>
    decreases |lines|
  {
    if lines == [] then Some([]) else
    var c', rest := Entered(c, lines[0]), lines[1..];
    if !StartsList(c', lines[0]) then Prepended(Some([lines[0]]), Merge(rest, c', known))
    else
      var n := BodyLength(rest);
      Prepended(List(Hand(rest[..n], false), KnownAt(known, c')), Merge(rest[n..], c', known))
  }

  const START := Context(None, None)

  /** The rewritten text, or None where the source throws. */
  function Merged(text: string, known: Known): Option<string> {
    var out := Merge(Lines(text), START, known);
    if out.Some? then Some(Joined(out.value)) else None
  }

  /* ---------------------------------------------------------------- the extractor */

  /** Where the extractor is: unlike the rewriter it does not forget the contract at a chain. */
  datatype Place = Place(c: Context, inGenerated: bool)

  function Moved(p: Place, line: string): Place {
    var id, name := ChainId(line), ContractName(line);
    Place(Context(if id.Some? then id else p.c.chain, if name.Some? then name else p.c.contract),
          if IsBegin(line) then true else if IsEnd(line) then false else p.inGenerated)
  }

  function FoundHere(chain: Option<nat>, contract: Option<string>, inGenerated: bool,
                     address: Option<string>): seq<Routed>
  {
    if inGenerated && address.Some? && chain.Some? && contract.Some?
    then [Routed(chain.value, contract.value, address.value)] else []
  }

  function Found(p: Place, line: string): seq<Routed> { FoundHere(p.c.chain, p.c.contract, p.inGenerated,
                 Address(line)) }

  function Extract(lines: seq<string>, p: Place): seq<Routed> {
    if lines == [] then [] else
    var p' := Moved(p, lines[0]);
    Found(p', lines[0]) + Extract(lines[1..], p')
  }

  function Extracted(text: string): seq<Routed> { Extract(Lines(text), Place(START, false)) }

  /** What the extractor should find: of each address list, in order, its known addresses not listed by hand. */
  function Expected(lines: seq<string>, c: Context, known: Known): seq<Routed>
    decreases |lines|
  {
    if lines == [] then [] else
    var c', rest := Entered(c, lines[0]), lines[1..];
    if !StartsList(c', lines[0]) then Expected(rest, c', known)
    else
      var n := BodyLength(rest);
      RoutedTo(c', Generated(Hand(rest[..n], false), KnownAt(known, c'))) + Expected(rest[n..], c', known)
  }

  function RoutedTo(c: Context, addresses: seq<string>): seq<Routed> {
    if addresses == [] || c.chain.None? || c.contract.None? then []
    else [Routed(c.chain.value, c.contract.value, addresses[0])] + RoutedTo(c, addresses[1..])
  }

  /** No begin marker stands outside the address lists. */
  predicate MarkersInside(lines: seq<string>, c: Context)
    decreases |lines|
  {
    lines == [] ||
    var c', rest := Entered(c, lines[0]), lines[1..];
    if !StartsList(c', lines[0]) then !IsBegin(lines[0]) && MarkersInside(rest, c')
    else MarkersInside(rest[BodyLength(rest)..], c')
  }

  /* ---------------------------------------------------------------- kinds of lines exclude each other */

  lemma {:induction false} Clash(line: string, a: string, b: string, i: nat)
    requires Starts(line, a) && i < |a| && i < |b| && a[i] != b[i]
    ensures !Starts(line, b)
  {
    assert line[..|a|][i] == line[i];
    if |b| <= |line| { assert line[..|b|][i] == line[i]; }
  }

  lemma {:induction false} ItemIsOnlyItem(line: string)
    requires Item(line)
    ensures ChainId(line).None? && ContractName(line).None? && !AddressKey(line)
  {
    Clash(line, ITEM_INDENT, CHAIN, 2);
    Clash(line, ITEM_INDENT, NAME, 6);
    Clash(line, ITEM_INDENT, KEY, 8);
  }

  lemma {:induction false} KeyIsOnlyKey(line: string)
    requires AddressKey(line)
    ensures ChainId(line).None? && ContractName(line).None? && !Item(line) && Address(line).None?
  {
    Clash(line, KEY, CHAIN, 2);
    Clash(line, KEY, NAME, 6);
    Clash(line, KEY, ITEM_INDENT, 8);
    Clash(line, KEY, BULLET, 8);
  }

  lemma {:induction false} KeysAreKeys()
    ensures AddressKey(KEY) && AddressKey(EMPTY_KEY)
  {
    assert EMPTY_KEY[..|KEY|] == KEY;
    assert KEY[|KEY|..] == "" && EMPTY_KEY[|EMPTY_KEY|..] == "" && EMPTY_KEY[..|EMPTY_KEY|] == EMPTY_KEY;
  }

  lemma {:induction false} EnteredKey(c: Context, line: string)
    requires AddressKey(line)
    ensures Entered(c, line) == c
  {
    KeyIsOnlyKey(line);
  }

  /* ---------------------------------------------------------------- trimming */

  lemma {:induction false} TrimStartSpaces(spaces: string, text: string)
    requires Blank(spaces) && text != "" && !Space(text[0])
    ensures TrimStart(spaces + text) == text
    decreases |spaces|
  {
    if spaces == "" {
      assert spaces + text == text;
    } else {
      assert (spaces + text)[1..] == spaces[1..] + text;
      TrimStartSpaces(spaces[1..], text);
    }
  }

  /** An item with a bullet, a comment or any other first character is trimmed to a text with that first character. */
  lemma {:induction false} TrimEndFirst(text: string)
    requires text != "" && !Space(text[0])
    ensures TrimEnd(text) != "" && TrimEnd(text)[0] == text[0]
    decreases |text|
  {
    if Space(text[|text| - 1]) { TrimEndFirst(text[..|text| - 1]); }
  }

  lemma {:induction false} TrimKey(line: string)
    requires line == KEY || line == EMPTY_KEY
    ensures Trim(line) != "" && Trim(line)[0] == 'a'
  {
    var spaces, text := line[..8], line[8..];
    assert line == spaces + text && text[0] == 'a';
    TrimStartSpaces(spaces, text);
    TrimEndFirst(text);
  }

  lemma {:induction false} KeyIsNoMarker(line: string)
    requires line == KEY || line == EMPTY_KEY
    ensures !IsBegin(line) && !IsEnd(line)
  {
    TrimKey(line);
  }

  lemma {:induction false} TrimMarker(text: string)
    requires text != "" && !Space(text[0]) && !Space(text[|text| - 1])
    ensures Trim(ITEM_INDENT + text) == text
  {
    TrimStartSpaces(ITEM_INDENT, text);
  }

  lemma {:induction false} MarkersAreMarkers()
    ensures IsBegin(ITEM_INDENT + BEGIN) && IsEnd(ITEM_INDENT + END) && BEGIN != END
    ensures Item(ITEM_INDENT + BEGIN) && Item(ITEM_INDENT + END)
    ensures Address(ITEM_INDENT + BEGIN).None? && Address(ITEM_INDENT + END).None?
  {
    TrimMarker(BEGIN);
    TrimMarker(END);
    Indented(BEGIN);
    Indented(END);
  }

  lemma {:induction false} Indented(text: string)
    requires text != "" && text[0] != '-'
    ensures Item(ITEM_INDENT + text) && Address(ITEM_INDENT + text).None?
  {
    var line := ITEM_INDENT + text;
    assert line[..10] == ITEM_INDENT;
    assert line[10] == text[0];
    if |BULLET| <= |line| { assert line[..|BULLET|][10] == line[10]; }
  }

  /** A generated address is an item with that address, and no marker. */
  lemma {:induction false} AddressLine(address: string)
    requires IsLowerAddress(address)
    ensures var line := BULLET + address;
      Item(line) && Address(line) == Some(address) && !IsBegin(line) && !IsEnd(line) && OneLine(line)
  {
    BulletItem(address);
    BulletNoMarker(address);
    AddressRead(address);
    assert OneLine(BULLET);
  }

  lemma {:induction false} BulletItem(text: string)
    ensures Item(BULLET + text) && Starts(BULLET + text, BULLET) && (BULLET + text)[|BULLET|..] == text
  {
    assert (BULLET + text)[..10] == BULLET[..10] == ITEM_INDENT;
  }

  lemma {:induction false} BulletNoMarker(text: string)
    ensures !IsBegin(BULLET + text) && !IsEnd(BULLET + text)
  {
    var dashed := "- " + text;
    assert BULLET + text == ITEM_INDENT + dashed;
    TrimStartSpaces(ITEM_INDENT, dashed);
    TrimEndFirst(dashed);
  }

  lemma {:induction false} AddressRead(address: string)
    requires IsLowerAddress(address)
    ensures Address(BULLET + address) == Some(address)
  {
    BulletItem(address);
    assert address[..42] == address;
    assert IsAddress(address);
  }

  /* ---------------------------------------------------------------- a list rewritten */

  /** The rewritten body holds the same hand lines, whatever the block. */
  lemma {:induction false} HandKept(hand: seq<string>, more: seq<string>)
    requires forall i | 0 <= i < |hand| :: !IsBegin(hand[i]) && !IsEnd(hand[i])
    ensures Hand(hand + more, false) == hand + Hand(more, false)
    decreases |hand|
  {
    if hand == [] {
      assert hand + more == more;
    } else {
      assert (hand + more)[1..] == hand[1..] + more;
      HandKept(hand[1..], more);
    }
  }

  lemma {:induction false} HandHasNoMarkers(body: seq<string>, inGenerated: bool)
    ensures forall i | 0 <= i < |Hand(body, inGenerated)| ::
      !IsBegin(Hand(body, inGenerated)[i]) && !IsEnd(Hand(body, inGenerated)[i])
    ensures forall line | line in Hand(body, inGenerated) :: line in body
    decreases |body|
  {
    if body != [] {
      HandHasNoMarkers(body[1..], true);
      HandHasNoMarkers(body[1..], false);
    }
  }

  lemma {:induction false} HandSkips(line: string, rest: seq<string>)
    requires !IsBegin(line) && !IsEnd(line)
    ensures Hand([line] + rest, true) == Hand(rest, true)
  {
    hide IsBegin, IsEnd;
    assert ([line] + rest)[0] == line && ([line] + rest)[1..] == rest;
  }

  lemma {:induction false} HandOfAddresses(addresses: seq<string>, more: seq<string>)
    requires AllLower(addresses)
    ensures Hand(AddressLines(addresses) + more, true) == Hand(more, true)
    decreases |addresses|
  {
    if addresses == [] {
      assert AddressLines(addresses) + more == more;
    } else {
      AddressLine(addresses[0]);
      HandOfAddresses(addresses[1..], more);
      HandSkips(BULLET + addresses[0], AddressLines(addresses[1..]) + more);
      assert AddressLines(addresses) + more == [BULLET + addresses[0]] + (AddressLines(addresses[1..]) + more);
    }
  }

  lemma {:induction false} HandOfBlock(generated: seq<string>)
    requires AllLower(generated)
    ensures Hand(Block(generated), false) == []
  {
    MarkersAreMarkers();
    if generated != [] {
      var end := [ITEM_INDENT + END];
      var tail := AddressLines(generated) + end;
      assert Block(generated) == [ITEM_INDENT + BEGIN] + tail;
      assert Block(generated)[1..] == tail;
      HandOfAddresses(generated, end);
      assert end[1..] == [];
    }
  }

  /** The body of a rewritten list gives its hand lines back. */
  lemma {:induction false} HandAgain(body: seq<string>, generated: seq<string>)
    requires AllLower(generated)
    ensures Hand(Hand(body, false) + Block(generated), false) == Hand(body, false)
  {
    HandHasNoMarkers(body, false);
    HandKept(Hand(body, false), Block(generated));
    HandOfBlock(generated);
  }

  ghost predicate AllItems(lines: seq<string>) { forall i | 0 <= i < |lines| :: Item(lines[i]) }

  predicate StartsOutside(lines: seq<string>) { lines == [] || !Item(lines[0]) }

  lemma {:induction false} BodyThenOutside(body: seq<string>, after: seq<string>)
    requires AllItems(body) && StartsOutside(after)
    ensures BodyLength(body + after) == |body|
    decreases |body|
  {
    if body == [] {
      assert body + after == after;
    } else {
      assert (body + after)[1..] == body[1..] + after;
      BodyThenOutside(body[1..], after);
    }
  }

  lemma {:induction false} BodyIsItems(lines: seq<string>)
    ensures AllItems(lines[..BodyLength(lines)]) && StartsOutside(lines[BodyLength(lines)..])
    decreases |lines|
  {
    if lines != [] && Item(lines[0]) {
      BodyIsItems(lines[1..]);
      var n := BodyLength(lines[1..]);
      assert lines[..n + 1] == [lines[0]] + lines[1..][..n];
      assert lines[n + 1..] == lines[1..][n..];
    }
  }

  lemma {:induction false} AddressLinesItems(addresses: seq<string>)
    requires AllLower(addresses)
    ensures AllItems(AddressLines(addresses)) && AreLines(AddressLines(addresses))
    decreases |addresses|
  {
    if addresses != [] {
      AddressLine(addresses[0]);
      AddressLinesItems(addresses[1..]);
    }
  }

  lemma {:induction false} BlockItems(generated: seq<string>)
    requires AllLower(generated)
    ensures AllItems(Block(generated))
  {
    MarkersAreMarkers();
    AddressLinesItems(generated);
  }

  lemma {:induction false} HandItems(body: seq<string>)
    requires AllItems(body)
    ensures AllItems(Hand(body, false))
  {
    HandHasNoMarkers(body, false);
    forall i | 0 <= i < |Hand(body, false)| ensures Item(Hand(body, false)[i]) {
      assert Hand(body, false)[i] in body;
    }
  }

  /** What a rewritten list is: a key line, then items that give the hand lines back. */
  ghost predicate IsList(list: seq<string>, hand: seq<string>) {
    list != [] && (list[0] == KEY || list[0] == EMPTY_KEY) && AllItems(list[1..]) && Hand(list[1..], false) == hand
  }

  lemma {:induction false} ListIs(body: seq<string>, known: seq<string>)
    requires AllItems(body) && List(Hand(body, false), known).Some?
    ensures IsList(List(Hand(body, false), known).value, Hand(body, false))
  {
    var hand := Hand(body, false);
    var generated, list := Generated(hand, known), List(hand, known).value;
    if hand != [] || generated != [] {
      KeyedList(hand, generated);
      HandAgain(body, generated);
      HandItems(body);
      BlockItems(generated);
    } else {
      assert [EMPTY_KEY][1..] == [];
    }
  }

  lemma {:induction false} KeyedList(hand: seq<string>, generated: seq<string>)
    ensures ([KEY] + hand + Block(generated))[0] == KEY
    ensures ([KEY] + hand + Block(generated))[1..] == hand + Block(generated)
  {
  }

  /* ---------------------------------------------------------------- only the last known list matters */

  lemma {:induction false} MergeStartsOutside(lines: seq<string>, c: Context, known: Known)
    requires StartsOutside(lines) && Merge(lines, c, known).Some?
    ensures StartsOutside(Merge(lines, c, known).value)
  {
    if lines != [] {
      KeysAreKeys();
      KeyIsOnlyKey(KEY);
      KeyIsOnlyKey(EMPTY_KEY);
    }
  }

  /** Rewriting a list that is already rewritten. */
  lemma {:induction false} MergeList(list: seq<string>, hand: seq<string>, after: seq<string>, c: Context, known: Known)
    requires IsList(list, hand) && StartsOutside(after) && c.chain.Some? && c.contract.Some?
    ensures Merge(list + after, c, known) == Prepended(List(hand, KnownAt(known, c)), Merge(after, c, known))
  {
    var all := list + after;
    KeysAreKeys();
    EnteredKey(c, list[0]);
    assert all[0] == list[0] && all[1..] == list[1..] + after;
    BodyThenOutside(list[1..], after);
    assert all[1..][..|list[1..]|] == list[1..] && all[1..][|list[1..]|..] == after;
  }

  lemma {:induction false} MergeAgain(lines: seq<string>, c: Context, first: Known, last: Known)
    requires Merge(lines, c, first).Some?
    ensures Merge(Merge(lines, c, first).value, c, last) == Merge(lines, c, last)
    decreases |lines|
  {
    if lines != [] {
      var c', rest, out := Entered(c, lines[0]), lines[1..], Merge(lines, c, first).value;
      if !StartsList(c', lines[0]) {
        MergeAgain(rest, c', first, last);
        var tail := Merge(rest, c', first).value;
        assert out == [lines[0]] + tail && out[1..] == tail;
      } else {
        var n := BodyLength(rest);
        var hand := Hand(rest[..n], false);
        EnteredKey(c, lines[0]);
        BodyIsItems(rest);
        ListIs(rest[..n], KnownAt(first, c'));
        MergeStartsOutside(rest[n..], c', first);
        MergeAgain(rest[n..], c', first, last);
        MergeList(List(hand, KnownAt(first, c')).value, hand, Merge(rest[n..], c', first).value, c', last);
      }
    }
  }

  /* ---------------------------------------------------------------- the texts */

  lemma {:induction false} HandAreLines(body: seq<string>)
    requires AreLines(body)
    ensures AreLines(Hand(body, false))
  {
    HandHasNoMarkers(body, false);
    forall i | 0 <= i < |Hand(body, false)| ensures OneLine(Hand(body, false)[i]) {
      assert Hand(body, false)[i] in body;
    }
  }

  lemma {:induction false} ListAreLines(hand: seq<string>, known: seq<string>)
    requires AreLines(hand) && List(hand, known).Some?
    ensures AreLines(List(hand, known).value)
  {
    var generated := Generated(hand, known);
    if hand != [] || generated != [] {
      BlockAreLines(generated);
    } else {
    }
  }

  lemma {:induction false} IndentedLine(text: string)
    requires OneLine(text)
    ensures OneLine(ITEM_INDENT + text)
  {
  }

  lemma {:induction false} BlockAreLines(generated: seq<string>)
    requires AllLower(generated)
    ensures AreLines(Block(generated))
  {
    AddressLinesItems(generated);
    IndentedLine(BEGIN);
    IndentedLine(END);
  }

  lemma {:induction false} MergeAreLines(lines: seq<string>, c: Context, known: Known)
    requires AreLines(lines) && Merge(lines, c, known).Some?
    ensures AreLines(Merge(lines, c, known).value) && (lines != [] ==> Merge(lines, c, known).value != [])
    decreases |lines|
  {
    if lines != [] {
      var c', rest := Entered(c, lines[0]), lines[1..];
      if !StartsList(c', lines[0]) {
        MergeAreLines(rest, c', known);
      } else {
        var n := BodyLength(rest);
        HandAreLines(rest[..n]);
        ListAreLines(Hand(rest[..n], false), KnownAt(known, c'));
        MergeAreLines(rest[n..], c', known);
      }
    }
  }

  /**
   * Only the last known list matters, for any text: merging the result of a merge with another list gives what merging
   * the text itself gives, the refusal included; so merging the same list again changes nothing.
   */
  lemma {:induction false} OnlyLastKnownMatters(text: string, first: Known, last: Known)
    requires Merged(text, first).Some?
    ensures Merged(Merged(text, first).value, last) == Merged(text, last)
    ensures Merged(Merged(text, first).value, first) == Merged(text, first)
  {
    var lines := Lines(text);
    var out := Merge(lines, START, first).value;
    LinesAreLines(text);
    MergeAreLines(lines, START, first);
    LinesOfJoined(out);
    MergeAgain(lines, START, first, last);
    MergeAgain(lines, START, first, first);
  }

  /* ---------------------------------------------------------------- the extractor finds what the rewriter wrote */

  lemma {:induction false} ExtractNext(line: string, after: seq<string>, p: Place)
    ensures Extract([line] + after, p) == Found(Moved(p, line), line) + Extract(after, Moved(p, line))
  {
    assert ([line] + after)[1..] == after;
  }

  /** A line that gives nothing and moves nothing. */
  lemma {:induction false} ExtractSkips(line: string, after: seq<string>, p: Place)
    requires Moved(p, line) == p && Found(p, line) == []
    ensures Extract([line] + after, p) == Extract(after, p)
  {
    ExtractNext(line, after, p);
    assert [] + Extract(after, p) == Extract(after, p);
  }

  /** Hand-listed lines move nothing and give nothing. */
  lemma {:induction false} ExtractHand(hand: seq<string>, after: seq<string>, e: Context)
    requires AllItems(hand) && forall i | 0 <= i < |hand| :: !IsBegin(hand[i]) && !IsEnd(hand[i])
    ensures Extract(hand + after, Place(e, false)) == Extract(after, Place(e, false))
    decreases |hand|
  {
    if hand == [] {
      assert hand + after == after;
    } else {
      ItemIsOnlyItem(hand[0]);
      assert hand + after == [hand[0]] + (hand[1..] + after);
      ExtractSkips(hand[0], hand[1..] + after, Place(e, false));
      ExtractHand(hand[1..], after, e);
    }
  }

  lemma {:induction false} ExtractAddress(address: string, after: seq<string>, e: Context)
    requires IsLowerAddress(address) && e.chain.Some? && e.contract.Some?
    ensures Extract([BULLET + address] + after, Place(e, true))
         == [Routed(e.chain.value, e.contract.value, address)] + Extract(after, Place(e, true))
  {
    AddressLine(address);
    ItemIsOnlyItem(BULLET + address);
    ExtractNext(BULLET + address, after, Place(e, true));
  }

  lemma {:induction false} AddressLinesThen(addresses: seq<string>, after: seq<string>)
    requires addresses != []
    ensures AddressLines(addresses) + after == [BULLET + addresses[0]] + (AddressLines(addresses[1..]) + after)
  {
  }

  lemma {:induction false} ExtractAddresses(addresses: seq<string>, after: seq<string>, e: Context)
    requires AllLower(addresses) && e.chain.Some? && e.contract.Some?
    ensures Extract(AddressLines(addresses) + after, Place(e, true))
         == RoutedTo(e, addresses) + Extract(after, Place(e, true))
    decreases |addresses|
  {
    if addresses == [] {
      assert AddressLines(addresses) + after == after;
    } else {
      var rest := AddressLines(addresses[1..]) + after;
      AddressLinesThen(addresses, after);
      ExtractAddress(addresses[0], rest, e);
      ExtractAddresses(addresses[1..], after, e);
      var first := Routed(e.chain.value, e.contract.value, addresses[0]);
      Regrouped([first], RoutedTo(e, addresses[1..]), Extract(after, Place(e, true)));
    }
  }

  lemma {:induction false} ExtractMarkers(after: seq<string>, e: Context)
    ensures Extract([ITEM_INDENT + BEGIN] + after, Place(e, false)) == Extract(after, Place(e, true))
    ensures Extract([ITEM_INDENT + END] + after, Place(e, true)) == Extract(after, Place(e, false))
  {
    MarkersAreMarkers();
    ItemIsOnlyItem(ITEM_INDENT + BEGIN);
    ItemIsOnlyItem(ITEM_INDENT + END);
    ExtractNext(ITEM_INDENT + BEGIN, after, Place(e, false));
    ExtractNext(ITEM_INDENT + END, after, Place(e, true));
  }

  lemma {:induction false} ExtractBlock(generated: seq<string>, after: seq<string>, e: Context)
    requires AllLower(generated) && e.chain.Some? && e.contract.Some?
    ensures Extract(Block(generated) + after, Place(e, false))
         == RoutedTo(e, generated) + Extract(after, Place(e, false))
  {
    if generated == [] {
      assert Block(generated) + after == after;
    } else {
      var tail := [ITEM_INDENT + END] + after;
      BlockThen(generated, after);
      ExtractMarkers(AddressLines(generated) + tail, e);
      ExtractAddresses(generated, tail, e);
      ExtractMarkers(after, e);
    }
  }

  lemma {:induction false} BlockThen(generated: seq<string>, after: seq<string>)
    requires generated != []
    ensures Block(generated) + after
         == [ITEM_INDENT + BEGIN] + (AddressLines(generated) + ([ITEM_INDENT + END] + after))
  {
  }

  /** A rewritten list gives its generated addresses, and leaves the extractor where it was. */
  lemma {:induction false} ExtractList(body: seq<string>, known: seq<string>, after: seq<string>, e: Context)
    requires AllItems(body) && List(Hand(body, false), known).Some? && e.chain.Some? && e.contract.Some?
    ensures Extract(List(Hand(body, false), known).value + after, Place(e, false))
         == RoutedTo(e, Generated(Hand(body, false), known)) + Extract(after, Place(e, false))
  {
    var hand := Hand(body, false);
    var generated := Generated(hand, known);
    if hand == [] && generated == [] {
      ExtractKey(EMPTY_KEY, after, e);
    } else {
      HandHasNoMarkers(body, false);
      HandItems(body);
      ListThen(hand, generated, after);
      ExtractKey(KEY, hand + (Block(generated) + after), e);
      ExtractHand(hand, Block(generated) + after, e);
      ExtractBlock(generated, after, e);
    }
  }

  lemma {:induction false} ListThen(hand: seq<string>, generated: seq<string>, after: seq<string>)
    ensures [KEY] + hand + Block(generated) + after == [KEY] + (hand + (Block(generated) + after))
  {
    hide *;
    var block := Block(generated);
    assert hand + (block + after) == (hand + block) + after;
  }

  lemma {:induction false} ExtractKey(line: string, after: seq<string>, e: Context)
    requires line == KEY || line == EMPTY_KEY
    ensures Extract([line] + after, Place(e, false)) == Extract(after, Place(e, false))
  {
    KeysAreKeys();
    KeyIsOnlyKey(line);
    KeyIsNoMarker(line);
    ExtractSkips(line, after, Place(e, false));
  }

  /** The extractor is on the rewriter's chain, and on its contract when it has one. */
  predicate Along(c: Context, e: Context) {
    e.chain == c.chain && (c.contract.Some? ==> c.chain.Some? && e.contract == c.contract)
  }

  lemma {:induction false} ExtractCopied(line: string, after: seq<string>, c: Context, e: Context) returns (e': Context)
    requires Along(c, e) && !IsBegin(line)
    ensures Along(Entered(c, line), e') && Extract([line] + after, Place(e, false)) == Extract(after, Place(e', false))
  {
    var p := Moved(Place(e, false), line);
    e' := p.c;
    ExtractNext(line, after, Place(e, false));
    assert Found(p, line) == [];
    assert [] + Extract(after, p) == Extract(after, p);
    if ChainId(line).Some? { Clash(line, CHAIN, NAME, 2); }
  }

  lemma {:induction false} ExtractMerged(lines: seq<string>, c: Context, known: Known, e: Context)
    requires Merge(lines, c, known).Some? && MarkersInside(lines, c) && Along(c, e)
    ensures Extract(Merge(lines, c, known).value, Place(e, false)) == Expected(lines, c, known)
    decreases |lines|
  {
    if lines != [] {
      var c', rest := Entered(c, lines[0]), lines[1..];
      if !StartsList(c', lines[0]) {
        var e' := ExtractCopied(lines[0], Merge(rest, c', known).value, c, e);
        ExtractMerged(rest, c', known, e');
      } else {
        var n := BodyLength(rest);
        EnteredKey(c, lines[0]);
        BodyIsItems(rest);
        ExtractList(rest[..n], KnownAt(known, c'), Merge(rest[n..], c', known).value, e);
        ExtractMerged(rest[n..], c', known, e);
        SameRoutes(c', e, Generated(Hand(rest[..n], false), KnownAt(known, c')));
      }
    }
  }

  lemma {:induction false} SameRoutes(c: Context, e: Context, addresses: seq<string>)
    requires c.chain == e.chain && c.contract == e.contract
    ensures RoutedTo(c, addresses) == RoutedTo(e, addresses)
  {
    assert c == e;
  }

  /**
   * For a text with markers only inside its address lists: what the extractor finds in the merged text is, list by
   * list, exactly the known addresses not listed by hand.
   */
  lemma {:induction false} ExtractsWhatIsMerged(text: string, known: Known)
    requires Merged(text, known).Some? && MarkersInside(Lines(text), START)
    ensures Extracted(Merged(text, known).value) == Expected(Lines(text), START, known)
  {
    LinesAreLines(text);
    MergeAreLines(Lines(text), START, known);
    LinesOfJoined(Merge(Lines(text), START, known).value);
    ExtractMerged(Lines(text), START, known, START);
  }

  /* ---------------------------------------------------------------- merging what was extracted */

  lemma {:induction false} UnlistedHas(known: seq<string>, listed: seq<string>, x: string)
    ensures x in Unlisted(known, listed) <==> x in known && x !in listed
  {
    if known != [] {
      UnlistedHas(known[1..], listed, x);
      assert known == [known[0]] + known[1..];
    }
  }

  lemma {:induction false} UnlistedAscending(known: seq<string>, listed: seq<string>)
    requires Ascending(known)
    ensures Ascending(Unlisted(known, listed))
  {
    if known != [] {
      AscendingTail(known);
      UnlistedAscending(known[1..], listed);
      forall y | y in Unlisted(known[1..], listed) ensures Less(known[0], y) {
        UnlistedHas(known[1..], listed, y);
        HeadNotInTail(known);
        HeadIsLeast(known, y);
      }
      AscendingOf(known[0], Unlisted(known[1..], listed));
      assert [] + Unlisted(known[1..], listed) == Unlisted(known[1..], listed);
    }
  }

  lemma {:induction false} RoutedToHas(c: Context, addresses: seq<string>, r: Routed)
    requires c.chain.Some? && c.contract.Some?
    ensures r in RoutedTo(c, addresses)
       <==> r.chain == c.chain.value && r.contract == c.contract.value && r.address in addresses
  {
    if addresses != [] {
      RoutedToHas(c, addresses[1..], r);
      assert addresses == [addresses[0]] + addresses[1..];
    }
  }

  lemma {:induction false} LowerStays(address: string)
    requires forall i | 0 <= i < |address| :: !('A' <= address[i] <= 'Z')
    ensures Lower(address) == address
  {
    if address != "" {
      forall i | 0 <= i < |address[1..]| ensures !('A' <= address[1..][i] <= 'Z') {
        assert address[1..][i] == address[i + 1];
      }
      LowerStays(address[1..]);
    }
  }

  /** What a merge that succeeds expects the extractor to find is known under its key, and lowercase. */
  lemma {:induction false} ExpectedIsKnown(lines: seq<string>, c: Context, known: Known, r: Routed)
    requires Merge(lines, c, known).Some? && r in Expected(lines, c, known)
    ensures r.address in ListOf(known, KeyOf(r)) && Lower(r.address) == r.address
    decreases |lines|
  {
    hide Entered, Hand, BodyLength, RoutedTo, HandAddresses, Block;
    var c', rest := Entered(c, lines[0]), lines[1..];
    if !StartsList(c', lines[0]) {
      ExpectedIsKnown(rest, c', known, r);
    } else {
      var n := BodyLength(rest);
      var hand := Hand(rest[..n], false);
      var generated := Generated(hand, KnownAt(known, c'));
      if r in RoutedTo(c', generated) {
        RoutedToHas(c', generated, r);
        UnlistedHas(KnownAt(known, c'), HandAddresses(hand), r.address);
        assert IsLowerAddress(r.address);
        LowerStays(r.address);
      } else {
        ExpectedIsKnown(rest[n..], c', known, r);
      }
    }
  }

  /** Nothing but what was known, and under each key at least what the lists of these lines did not list by hand. */
  ghost predicate Between(lines: seq<string>, c: Context, known: Known, found: Known) {
    && AllAscending(known) && AllAscending(found)
    && (forall key, x | x in ListOf(found, key) :: x in ListOf(known, key))
    && (forall r | r in Expected(lines, c, known) :: r.address in ListOf(found, KeyOf(r)))
  }

  lemma {:induction false} SameGenerated(hand: seq<string>, c: Context, known: Known, found: Known)
    requires AllAscending(known) && AllAscending(found) && c.chain.Some? && c.contract.Some?
    requires forall key, x | x in ListOf(found, key) :: x in ListOf(known, key)
    requires forall r | r in RoutedTo(c, Generated(hand, KnownAt(known, c))) :: r.address in ListOf(found, KeyOf(r))
    ensures Generated(hand, KnownAt(found, c)) == Generated(hand, KnownAt(known, c))
  {
    var listed := HandAddresses(hand);
    var a, b := KnownAt(found, c), KnownAt(known, c);
    UnlistedAscending(a, listed);
    UnlistedAscending(b, listed);
    forall x ensures x in Unlisted(a, listed) <==> x in Unlisted(b, listed) {
      UnlistedHas(a, listed, x);
      UnlistedHas(b, listed, x);
      var r := Routed(c.chain.value, c.contract.value, x);
      RoutedToHas(c, Unlisted(b, listed), r);
      assert x in Unlisted(b, listed) ==> r in RoutedTo(c, Generated(hand, b));
    }
    AscendingEqual(Unlisted(a, listed), Unlisted(b, listed));
  }

  lemma {:induction false} SameMerge(lines: seq<string>, c: Context, known: Known, found: Known)
    requires Between(lines, c, known, found)
    ensures Merge(lines, c, found) == Merge(lines, c, known)
    decreases |lines|
  {
    if lines != [] {
      var c', rest := Entered(c, lines[0]), lines[1..];
      if !StartsList(c', lines[0]) {
        SameMerge(rest, c', known, found);
      } else {
        var n := BodyLength(rest);
        SameGenerated(Hand(rest[..n], false), c', known, found);
        SameMerge(rest[n..], c', known, found);
      }
    }
  }

  /**
   * Merging what the extractor finds in a merged text changes nothing: for a text with markers only inside its address
   * lists and known lists as `toKnownAddresses` makes them, also where several lists of one chain and contract have
   * different addresses by hand.
   */
  lemma {:induction false} MergesWhatIsExtracted(text: string, known: Known)
    requires Merged(text, known).Some? && MarkersInside(Lines(text), START) && AllAscending(known)
    ensures var merged := Merged(text, known).value;
      Merged(merged, ToKnown(Extracted(merged))) == Some(merged)
  {
    var merged := Merged(text, known).value;
    var found := ToKnown(Extracted(merged));
    ExtractsWhatIsMerged(text, known);
    FoundBetween(Lines(text), known, found);
    SameMerge(Lines(text), START, known, found);
    OnlyLastKnownMatters(text, known, found);
  }

  lemma {:induction false} FoundBetween(lines: seq<string>, known: Known, found: Known)
    requires Merge(lines, START, known).Some? && AllAscending(known)
    requires found == ToKnown(Expected(lines, START, known))
    ensures Between(lines, START, known, found)
  {
    var routed := Expected(lines, START, known);
    forall key ensures Ascending(ListOf(found, key)) { ToKnownIs(routed, key, ""); }
    forall key, x | x in ListOf(found, key) ensures x in ListOf(known, key) {
      ToKnownIs(routed, key, x);
      var r :| r in routed && KeyOf(r) == key && Lower(r.address) == x;
      ExpectedIsKnown(lines, START, known, r);
    }
    forall r | r in routed ensures r.address in ListOf(found, KeyOf(r)) {
      ExpectedIsKnown(lines, START, known, r);
      ToKnownIs(routed, KeyOf(r), r.address);
    }
  }

  /* ---------------------------------------------------------------- the loops */

  /** The hand lines of the body so far, with those to come, are the body's. */
  ghost predicate Collected(lines: seq<string>, at: nat, index: nat, hand: seq<string>, inGenerated: bool)
    requires at <= |lines| && index <= |lines|
  {
    && index + BodyLength(lines[index..]) == at + BodyLength(lines[at..])
    && hand + Hand(lines[index..][..BodyLength(lines[index..])], inGenerated)
       == Hand(lines[at..][..BodyLength(lines[at..])], false)
  }

  lemma {:induction false} CollectNext(lines: seq<string>, at: nat, index: nat, hand: seq<string>, inGenerated: bool)
    requires at <= |lines| && index < |lines| && Item(lines[index]) && Collected(lines, at, index, hand, inGenerated)
    ensures var item := lines[index];
      if IsBegin(item) then Collected(lines, at, index + 1, hand, true)
      else if IsEnd(item) then Collected(lines, at, index + 1, hand, false)
      else Collected(lines, at, index + 1, if inGenerated then hand else hand + [item], inGenerated)
  {
    BodyNext(lines, index);
    var rest := lines[index + 1..][..BodyLength(lines[index + 1..])];
    assert hand + ([lines[index]] + Hand(rest, inGenerated)) == hand + [lines[index]] + Hand(rest, inGenerated);
    assert [] + Hand(rest, inGenerated) == Hand(rest, inGenerated);
  }

  /** The rewriter's inner loop: a list's hand lines, and where its body ends. */
  method ReadBody(lines: seq<string>, at: nat) returns (hand: seq<string>, end: nat)
    requires at <= |lines|
    ensures end == at + BodyLength(lines[at..]) && hand == Hand(lines[at..][..BodyLength(lines[at..])], false)
  {
    var index, inGenerated := at, false;
    hand := [];
    while index < |lines| && Item(lines[index])
      invariant at <= index <= |lines| && Collected(lines, at, index, hand, inGenerated)
    {
      var item := lines[index];
      CollectNext(lines, at, index, hand, inGenerated);
      if IsBegin(item) {
        inGenerated := true;
      } else if IsEnd(item) {
        inGenerated := false;
      } else if !inGenerated {
        hand := hand + [item];
      }
      index := index + 1;
    }
    assert BodyLength(lines[index..]) == 0;
    assert hand + [] == hand;
    end := index;
  }

  /** The rest of the rewriter's work, prepended with what is written, is all of its work. */
  ghost predicate Written(lines: seq<string>, out: seq<string>, c: Context, index: nat, known: Known)
    requires index <= |lines|
  {
    Prepended(Some(out), Merge(lines[index..], c, known)) == Merge(lines, START, known)
  }

  lemma {:induction false} WriteLine(lines: seq<string>, out: seq<string>, c: Context, index: nat, known: Known)
    requires index < |lines| && Written(lines, out, c, index, known)
    requires !StartsList(Entered(c, lines[index]), lines[index])
    ensures Written(lines, out + [lines[index]], Entered(c, lines[index]), index + 1, known)
  {
    assert lines[index..][0] == lines[index] && lines[index..][1..] == lines[index + 1..];
    PrependedTwice(out, [lines[index]], Merge(lines[index + 1..], Entered(c, lines[index]), known));
  }

  /** The rewriter at the line of a list. */
  lemma {:induction false} MergeAtList(lines: seq<string>, c: Context, index: nat, known: Known)
    requires index < |lines| && StartsList(Entered(c, lines[index]), lines[index])
    ensures var c', n := Entered(c, lines[index]), BodyLength(lines[index + 1..]);
      Merge(lines[index..], c, known)
        == Prepended(List(Hand(lines[index + 1..][..n], false), KnownAt(known, c')),
                     Merge(lines[index + 1 + n..], c', known))
  {
    hide Entered, StartsList, List, Hand, BodyLength, KnownAt, Prepended;
    var n := BodyLength(lines[index + 1..]);
    assert lines[index..][0] == lines[index] && lines[index..][1..] == lines[index + 1..];
    assert lines[index + 1..][n..] == lines[index + 1 + n..];
  }

  lemma {:induction false} WriteList(lines: seq<string>, out: seq<string>, c: Context, index: nat, known: Known,
                                     hand: seq<string>, end: nat)
    requires index < |lines| && Written(lines, out, c, index, known)
    requires StartsList(Entered(c, lines[index]), lines[index])
    requires end == index + 1 + BodyLength(lines[index + 1..])
    requires hand == Hand(lines[index + 1..][..BodyLength(lines[index + 1..])], false)
    ensures var list := List(hand, KnownAt(known, Entered(c, lines[index])));
      if list.None? then Merge(lines, START, known).None?
      else Written(lines, out + list.value, Entered(c, lines[index]), end, known)
  {
    MergeAtList(lines, c, index, known);
    var c' := Entered(c, lines[index]);
    var list, tail := List(hand, KnownAt(known, c')), Merge(lines[end..], c', known);
    if list.Some? { PrependedTwice(out, list.value, tail); }
  }

  /** The rewriter's loop over the lines; None where the source throws. */
  method MergeKnownContracts(text: string, known: Known) returns (merged: Option<string>)
    ensures merged == Merged(text, known)
  {
    var lines := Lines(text);
    var out: seq<string>, c, index := [], START, 0;
    PrependedNothing(Merge(lines, START, known));
    assert lines[0..] == lines;
    while index < |lines|
      invariant 0 <= index <= |lines|
      invariant Written(lines, out, c, index, known)
    {
      var line := lines[index];
      ghost var before := c;
      c := Entered(c, line);
      if !StartsList(c, line) {
        WriteLine(lines, out, before, index, known);
        out := out + [line];
        index := index + 1;
      } else {
        var hand, end := ReadBody(lines, index + 1);
        var list := List(hand, KnownAt(known, c));
        WriteList(lines, out, before, index, known, hand, end);
        if list.None? { return None; }
        out := out + list.value;
        index := end;
      }
    }
    assert lines[index..] == [];
    assert out + [] == out;
    merged := Some(Joined(out));
  }

  lemma {:induction false} PrependedNothing(tail: Option<seq<string>>)
    ensures Prepended(Some([]), tail) == tail
  {
    if tail.Some? { assert [] + tail.value == tail.value; }
  }

  lemma {:induction false} PrependedTwice(a: seq<string>, b: seq<string>, tail: Option<seq<string>>)
    ensures Prepended(Some(a), Prepended(Some(b), tail)) == Prepended(Some(a + b), tail)
  {
    if tail.Some? { assert a + (b + tail.value) == a + b + tail.value; }
  }

  lemma {:induction false} BodyNext(lines: seq<string>, index: nat)
    requires index < |lines| && Item(lines[index])
    ensures var body := lines[index..][..BodyLength(lines[index..])];
      && BodyLength(lines[index..]) == 1 + BodyLength(lines[index + 1..])
      && body != [] && body[0] == lines[index] && body[1..] == lines[index + 1..][..BodyLength(lines[index + 1..])]
  {
    assert lines[index..][0] == lines[index] && lines[index..][1..] == lines[index + 1..];
  }

  lemma {:induction false} ExtractAt(lines: seq<string>, index: nat, routed: seq<Routed>, p: Place)
    requires index < |lines|
    ensures var p' := Moved(p, lines[index]);
      routed + Extract(lines[index..], p) == routed + Found(p', lines[index]) + Extract(lines[index + 1..], p')
  {
    var p' := Moved(p, lines[index]);
    assert lines[index..] == [lines[index]] + lines[index + 1..];
    ExtractNext(lines[index], lines[index + 1..], p);
    Regrouped(routed, Found(p', lines[index]), Extract(lines[index + 1..], p'));
  }

  lemma {:induction false} Regrouped(a: seq<Routed>, b: seq<Routed>, c: seq<Routed>)
    ensures a + (b + c) == a + b + c
  {
  }

  /** What is found so far, followed by what the lines from `index` on will give, is all the extractor finds. */
  ghost predicate FoundTo(text: string, index: nat, p: Place, routed: seq<Routed>) {
    index <= |Lines(text)| && routed + Extract(Lines(text)[index..], p) == Extracted(text)
  }

  lemma {:induction false} FoundNext(text: string, index: nat, p: Place, routed: seq<Routed>)
    requires FoundTo(text, index, p, routed) && index < |Lines(text)|
    ensures var p' := Moved(p, Lines(text)[index]);
      FoundTo(text, index + 1, p', routed + Found(p', Lines(text)[index]))
  {
    hide Moved, Found, Extract, Extracted, Lines;
    ExtractAt(Lines(text), index, routed, p);
  }

  lemma {:induction false} FoundFirst(text: string)
    ensures FoundTo(text, 0, Place(START, false), [])
  {
    assert Lines(text)[0..] == Lines(text) && [] + Extracted(text) == Extracted(text);
  }

  lemma {:induction false} FoundAll(text: string, p: Place, routed: seq<Routed>)
    requires FoundTo(text, |Lines(text)|, p, routed)
    ensures routed == Extracted(text)
  {
    assert Lines(text)[|Lines(text)|..] == [];
  }

  /** The extractor's loop over the lines. */
  method ReadGenerated(text: string) returns (routed: seq<Routed>)
    ensures routed == Extracted(text)
  {
    hide FoundTo, Extract, Extracted, Lines, IsBegin, IsEnd, ChainId, ContractName, Address;
    var lines := Lines(text);
    var chain: Option<nat>, contract: Option<string>, inGenerated := None, None, false;
    routed := [];
    FoundFirst(text);
    var index := 0;
    while index < |lines|
      invariant 0 <= index <= |lines| && FoundTo(text, index, Place(Context(chain, contract), inGenerated), routed)
    {
      var line := lines[index];
      FoundNext(text, index, Place(Context(chain, contract), inGenerated), routed);
      var id, name := ChainId(line), ContractName(line);
      if id.Some? { chain := id; }
      if name.Some? { contract := name; }
      if IsBegin(line) {
        inGenerated := true;
      } else if IsEnd(line) {
        inGenerated := false;
      }
      routed := routed + FoundHere(chain, contract, inGenerated, Address(line));
      index := index + 1;
    }
    FoundAll(text, Place(Context(chain, contract), inGenerated), routed);
  }

  /**
   * The extractor: its list has, under each key, exactly the addresses in that key's blocks, lowercase, once, in order.
   */
  method ExtractKnownContracts(text: string) returns (known: Known)
    ensures known == ToKnown(Extracted(text)) && AllAscending(known)
    ensures forall key, x ::
      x in ListOf(known, key) <==> exists r | r in Extracted(text) :: KeyOf(r) == key && Lower(r.address) == x
  {
    var routed := ReadGenerated(text);
    known := ToKnown(routed);
    forall key ensures Ascending(ListOf(known, key)) { ToKnownIs(routed, key, ""); }
    forall key, x
      ensures x in ListOf(known, key) <==> exists r | r in routed :: KeyOf(r) == key && Lower(r.address) == x
    {
      ToKnownIs(routed, key, x);
    }
  }
}
