/**
 * What the rewriter of config.yaml's generated blocks reads in its lines and does with them
 * (apps/indexer/scripts/knownConfig.ts): its patterns as the texts they match, the chain and contract a line stands in,
 * and the rewritten text piece by piece.
 */
module ConfigLines {
  import opened KnownAddresses
  import opened KnownConfig
  import opened Options

  /* ---------------------------------------------------------------- the patterns as texts */

  ghost predicate All(text: string, p: char -> bool) { forall i | 0 <= i < |text| :: p(text[i]) }

  /** `\b` after a word character: the end of the line or no word character. */
  predicate WordEnds(rest: string) { rest == "" || !Word(rest[0]) }

  lemma {:induction false} StartsWith(prefix: string, rest: string)
    ensures Starts(prefix + rest, prefix) && (prefix + rest)[|prefix|..] == rest
  {
  }

  lemma {:induction false} StartsThen(line: string, prefix: string)
    requires Starts(line, prefix)
    ensures line == prefix + line[|prefix|..]
  {
  }

  lemma {:induction false} WordRunIs(text: string)
    ensures var n := WordRun(text);
      All(text[..n], Word) && WordEnds(text[n..])
    decreases |text|
  {
    if text != "" && Word(text[0]) {
      WordRunIs(text[1..]);
      var n := WordRun(text[1..]);
      assert text[..n + 1] == [text[0]] + text[1..][..n] && text[n + 1..] == text[1..][n..];
    }
  }

  lemma {:induction false} WordRunOf(word: string, rest: string)
    requires All(word, Word) && WordEnds(rest)
    ensures WordRun(word + rest) == |word|
    decreases |word|
  {
    if word == "" {
      assert word + rest == rest;
    } else {
      assert (word + rest)[1..] == word[1..] + rest;
      WordRunOf(word[1..], rest);
    }
  }

  lemma {:induction false} DigitRunIs(text: string)
    ensures var n := DigitRun(text);
      All(text[..n], Digit) && (text[n..] == "" || !Digit(text[n..][0]))
    decreases |text|
  {
    if text != "" && Digit(text[0]) {
      DigitRunIs(text[1..]);
      var n := DigitRun(text[1..]);
      assert text[..n + 1] == [text[0]] + text[1..][..n] && text[n + 1..] == text[1..][n..];
    }
  }

  lemma {:induction false} DigitRunOf(digits: string, rest: string)
    requires All(digits, Digit) && (rest == "" || !Digit(rest[0]))
    ensures DigitRun(digits + rest) == |digits|
    decreases |digits|
  {
    if digits == "" {
      assert digits + rest == rest;
    } else {
      assert (digits + rest)[1..] == digits[1..] + rest;
      DigitRunOf(digits[1..], rest);
    }
  }

  ghost predicate ChainText(line: string, digits: string, rest: string) {
    line == "  - id: " + digits + rest && digits != "" && All(digits, Digit) && WordEnds(rest)
  }

  /** `^ {2}- id: (\d+)\b`: the digits and what follows. */
  lemma {:induction false} ChainLine(line: string, id: nat)
    ensures ChainId(line) == Some(id)
       <==> exists digits, rest :: ChainText(line, digits, rest) && Decimal(digits) == id
  {
    hide Decimal;
    if ChainId(line) == Some(id) {
      StartsThen(line, CHAIN);
      var after := line[|CHAIN|..];
      DigitRunIs(after);
      var n := DigitRun(after);
      assert after == after[..n] + after[n..];
      assert line == "  - id: " + after[..n] + after[n..];
      assert ChainText(line, after[..n], after[n..]);
    }
    if digits, rest :| ChainText(line, digits, rest) && Decimal(digits) == id {
      assert line == CHAIN + (digits + rest);
      StartsWith(CHAIN, digits + rest);
      DigitRunOf(digits, rest);
      assert (digits + rest)[..|digits|] == digits && (digits + rest)[|digits|..] == rest;
    }
  }

  /** The decimal digits of a number, and the number they spell. */
  function Printed(n: nat): string {
    if n < 10 then [(n + '0' as nat) as char] else Printed(n / 10) + [(n % 10 + '0' as nat) as char]
  }

  lemma {:induction false} DecimalMore(digits: string, digit: nat)
    requires digit < 10
    ensures Decimal(digits + [(digit + '0' as nat) as char]) == 10 * Decimal(digits) + digit
  {
    var more := digits + [(digit + '0' as nat) as char];
    assert more[..|digits|] == digits && more[|digits|] == (digit + '0' as nat) as char;
  }

  lemma {:induction false} DecimalOfPrinted(n: nat)
    ensures Decimal(Printed(n)) == n && Printed(n) != "" && All(Printed(n), Digit)
  {
    if n < 10 {
      DecimalMore("", n);
      assert "" + Printed(n) == Printed(n);
    } else {
      DecimalOfPrinted(n / 10);
      DecimalMore(Printed(n / 10), n % 10);
    }
  }

  ghost predicate NameText(line: string, name: string, blank: string) {
    line == "      - name: " + name + blank && name != "" && All(name, Word) && Blank(blank)
  }

  lemma {:induction false} BlankEndsWord(blank: string)
    requires Blank(blank)
    ensures WordEnds(blank)
  {
  }

  /** `^ {6}- name: (\w+)\s*$`. */
  lemma {:induction false} NameLine(line: string, name: string)
    ensures ContractName(line) == Some(name) <==> exists blank :: NameText(line, name, blank)
  {
    hide Space, Word;
    if ContractName(line) == Some(name) {
      StartsThen(line, NAME);
      var after := line[|NAME|..];
      WordRunIs(after);
      var n := WordRun(after);
      assert after == after[..n] + after[n..];
      assert line == "      - name: " + after[..n] + after[n..];
      assert NameText(line, name, after[n..]);
    }
    if blank :| NameText(line, name, blank) {
      assert line == NAME + (name + blank);
      StartsWith(NAME, name + blank);
      BlankEndsWord(blank);
      WordRunOf(name, blank);
      assert (name + blank)[..|name|] == name && (name + blank)[|name|..] == blank;
    }
  }

  /** `^ {8}address:( \[\])?\s*$`. */
  lemma {:induction false} KeyLine(line: string)
    ensures AddressKey(line)
       <==> exists blank ::
              Blank(blank) && (line == "        address:" + blank || line == "        address: []" + blank)
  {
    hide Space;
    if AddressKey(line) {
      if Blank(line[|KEY|..]) {
        StartsThen(line, KEY);
      } else {
        StartsThen(line, EMPTY_KEY);
      }
    }
    if blank :| Blank(blank) && (line == KEY + blank || line == EMPTY_KEY + blank) {
      if line == KEY + blank {
        StartsWith(KEY, blank);
      } else {
        StartsWith(EMPTY_KEY, blank);
        assert EMPTY_KEY == KEY + " []";
        assert line == KEY + (" []" + blank);
        StartsWith(KEY, " []" + blank);
      }
    }
  }

  ghost predicate BulletText(line: string, address: string, rest: string) {
    line == "          - " + address + rest && IsAddress(address) && WordEnds(rest)
  }

  /** `^ {10}- (0x[0-9a-fA-F]{40})\b`. */
  lemma {:induction false} BulletLine(line: string, address: string)
    ensures Address(line) == Some(address) <==> exists rest :: BulletText(line, address, rest)
  {
    hide IsAddress, Word;
    if Address(line) == Some(address) {
      StartsThen(line, BULLET);
      var after := line[|BULLET|..];
      assert after == after[..42] + after[42..];
      assert line == "          - " + after[..42] + after[42..];
      assert BulletText(line, address, after[42..]);
    }
    if rest :| BulletText(line, address, rest) {
      assert |address| == 42 by { AddressLength(address); }
      assert line == BULLET + (address + rest);
      StartsWith(BULLET, address + rest);
      assert (address + rest)[..42] == address && (address + rest)[42..] == rest;
    }
  }

  lemma {:induction false} AddressLength(address: string)
    requires IsAddress(address)
    ensures |address| == 42
  {
  }

  /* lowercase */

  predicate SameLetter(a: char, b: char) {
    a == b || ('A' <= a <= 'Z' && b as int == a as int + 32) || ('A' <= b <= 'Z' && a as int == b as int + 32)
  }

  predicate SameButCase(a: string, b: string) { |a| == |b| && forall i | 0 <= i < |a| :: SameLetter(a[i], b[i]) }

  lemma {:induction false} LowerAt(a: string, i: nat)
    requires i < |a|
    ensures |Lower(a)| == |a| && SameLetter(a[i], Lower(a)[i]) && !('A' <= Lower(a)[i] <= 'Z')
    decreases |a|
  {
    if i > 0 {
      LowerAt(a[1..], i - 1);
    } else if |a| > 1 {
      LowerAt(a[1..], 0);
    }
  }

  /**
   * Lowercase is the same text but for case, with no capital letter left; so a listed address becomes a written one.
   */
  lemma {:induction false} LowerIs(a: string)
    ensures SameButCase(a, Lower(a)) && forall i | 0 <= i < |Lower(a)| :: !('A' <= Lower(a)[i] <= 'Z')
    ensures IsAddress(a) ==> IsLowerAddress(Lower(a))
  {
    if a == "" {
    } else {
      forall i: nat | i < |a|
        ensures |Lower(a)| == |a| && SameLetter(a[i], Lower(a)[i]) && !('A' <= Lower(a)[i] <= 'Z')
      {
        LowerAt(a, i);
      }
      LowerAt(a, 0);
    }
  }

  /* ---------------------------------------------------------------- the chain and contract a line stands in */

  /** After the lines, from where they begin. */
  function ContextAfter(lines: seq<string>, c: Context): Context {
    if lines == [] then c else
    Entered(ContextAfter(lines[..|lines| - 1], c), lines[|lines| - 1])
  }

  /** The line at `j` is the last chain's. */
  ghost predicate LastChain(lines: seq<string>, j: nat, id: nat) {
    j < |lines| && ChainId(lines[j]) == Some(id) && forall i | j < i < |lines| :: ChainId(lines[i]).None?
  }

  /** The last contract's name, on or after that line. */
  ghost predicate LastName(lines: seq<string>, j: nat, k: nat, name: string) {
    && j <= k < |lines| && ContractName(lines[k]) == Some(name)
    && forall i | k < i < |lines| :: ContractName(lines[i]).None?
  }

  ghost predicate StandsIn(lines: seq<string>, id: nat, name: string) {
    exists j: nat, k: nat :: LastChain(lines, j, id) && LastName(lines, j, k, name)
  }

  lemma {:induction false} ChainIs(lines: seq<string>, id: nat)
    ensures ContextAfter(lines, START).chain == Some(id) <==> exists j: nat :: LastChain(lines, j, id)
    ensures ContextAfter(lines, START).chain.None? <==> forall j | 0 <= j < |lines| :: ChainId(lines[j]).None?
    decreases |lines|
  {
    hide ChainId, ContractName;
    if lines != [] {
      var n := |lines| - 1;
      ChainIs(lines[..n], id);
      if j: nat :| LastChain(lines[..n], j, id) && ChainId(lines[n]).None? { assert LastChain(lines, j, id); }
      if j: nat :| LastChain(lines, j, id) && j < n { assert LastChain(lines[..n], j, id); }
      if ChainId(lines[n]) == Some(id) { assert LastChain(lines, n, id); }
    }
  }

  /** The name is the contract's exactly when it is the last since the last chain began. */
  lemma {:induction false} StandsInExactly(lines: seq<string>, id: nat, name: string)
    ensures ContextAfter(lines, START) == Context(Some(id), Some(name)) <==> StandsIn(lines, id, name)
    decreases |lines|
  {
    if lines != [] {
      var n := |lines| - 1;
      StandsInExactly(lines[..n], id, name);
      ChainIs(lines[..n], id);
      ChainIs(lines, id);
      StandsInMore(lines[..n], lines[n], id, name);
      assert lines[..n] + [lines[n]] == lines;
      hide StandsIn, LastChain, LastName, ChainId, ContractName;
    }
  }

  lemma {:induction false} StandsInMore(lines: seq<string>, line: string, id: nat, name: string)
    ensures StandsIn(lines + [line], id, name)
       <==> if ChainId(line).Some? then ChainId(line) == Some(id) && ContractName(line) == Some(name)
            else if ContractName(line).Some? then
              ContractName(line) == Some(name) && exists j: nat :: LastChain(lines, j, id)
            else StandsIn(lines, id, name)
  {
    hide ChainId, ContractName;
    var more, n := lines + [line], |lines|;
    assert more[n] == line && forall i | 0 <= i < n :: lines[i] == more[i];
    if StandsIn(more, id, name) {
      var j: nat, k: nat :| LastChain(more, j, id) && LastName(more, j, k, name);
      if j < n { assert LastChain(lines, j, id); }
      if j < n && k < n { assert LastName(lines, j, k, name); }
    }
    if ChainId(line) == Some(id) && ContractName(line) == Some(name) {
      assert LastChain(more, n, id) && LastName(more, n, n, name);
    }
    if ChainId(line).None? {
      if j: nat :| LastChain(lines, j, id) && ContractName(line) == Some(name) {
        assert LastChain(more, j, id) && LastName(more, j, n, name);
      }
      if j: nat, k: nat :| LastChain(lines, j, id) && LastName(lines, j, k, name) && ContractName(line).None? {
        assert LastChain(more, j, id) && LastName(more, j, k, name);
      }
    }
  }

  /* ---------------------------------------------------------------- the rewritten text, piece by piece */

  lemma {:induction false} ContextMore(a: seq<string>, b: seq<string>, c: Context)
    ensures ContextAfter(a + b, c) == ContextAfter(b, ContextAfter(a, c))
    decreases |b|
  {
    if b == [] {
      assert a + b == a;
    } else {
      var n := |b| - 1;
      assert (a + b)[..|a + b| - 1] == a + b[..n];
      ContextMore(a, b[..n], c);
    }
  }

  lemma {:induction false} ContextOf(line: string, rest: seq<string>, c: Context)
    ensures ContextAfter([line] + rest, c) == ContextAfter(rest, Entered(c, line))
  {
    ContextMore([line], rest, c);
    assert [line][..0] == [];
  }

  /** Items lie in the contract their list is in. */
  lemma {:induction false} ItemsStay(items: seq<string>, c: Context)
    requires AllItems(items)
    ensures ContextAfter(items, c) == c
    decreases |items|
  {
    if items != [] {
      ItemsStay(items[..|items| - 1], c);
      ItemIsOnlyItem(items[|items| - 1]);
    }
  }

  lemma {:induction false} PrependedAgain(x: Option<seq<string>>, y: Option<seq<string>>, z: Option<seq<string>>)
    ensures Prepended(Prepended(x, y), z) == Prepended(x, Prepended(y, z))
  {
    if x.Some? && y.Some? && z.Some? { assert x.value + y.value + z.value == x.value + (y.value + z.value); }
  }

  lemma {:induction false} BodyBefore(a: seq<string>, b: seq<string>)
    requires StartsOutside(b)
    ensures BodyLength(a + b) == BodyLength(a)
    decreases |a|
  {
    if a == [] {
      assert a + b == b;
    } else {
      assert (a + b)[1..] == a[1..] + b;
      BodyBefore(a[1..], b);
    }
  }

  /** Lines that a line outside a list follows are rewritten on their own, and the rest where they leave off. */
  lemma {:induction false} MergeSplits(a: seq<string>, b: seq<string>, c: Context, known: Known)
    requires StartsOutside(b)
    ensures Merge(a + b, c, known) == Prepended(Merge(a, c, known), Merge(b, ContextAfter(a, c), known))
    decreases |a|
  {
    if a == [] {
      assert a + b == b;
      if Merge(b, c, known).Some? { assert [] + Merge(b, c, known).value == Merge(b, c, known).value; }
    } else {
      var c', rest := Entered(c, a[0]), a[1..];
      assert (a + b)[0] == a[0] && (a + b)[1..] == rest + b && a == [a[0]] + rest;
      ContextOf(a[0], rest, c);
      if !StartsList(c', a[0]) {
        MergeSplits(rest, b, c', known);
        PrependedAgain(Some([a[0]]), Merge(rest, c', known), Merge(b, ContextAfter(rest, c'), known));
      } else {
        MergeSplits(rest[BodyLength(rest)..], b, c', known);
        ListSplits(a[0], rest, b, c, known);
      }
    }
  }

  lemma {:induction false} MergeAtKey(key: string, rest: seq<string>, c: Context, known: Known)
    requires StartsList(Entered(c, key), key)
    ensures var c', n := Entered(c, key), BodyLength(rest);
      Merge([key] + rest, c, known)
      == Prepended(List(Hand(rest[..n], false), KnownAt(known, c')), Merge(rest[n..], c', known))
  {
    hide Entered, StartsList, List, Hand, KnownAt, Prepended, BodyLength;
    assert ([key] + rest)[0] == key && ([key] + rest)[1..] == rest;
  }

  lemma {:induction false} ListSplits(key: string, rest: seq<string>, b: seq<string>, c: Context, known: Known)
    requires StartsOutside(b) && StartsList(Entered(c, key), key)
    requires var c', n := Entered(c, key), BodyLength(rest);
      Merge(rest[n..] + b, c', known)
      == Prepended(Merge(rest[n..], c', known), Merge(b, ContextAfter(rest[n..], c'), known))
    ensures Merge([key] + rest + b, c, known)
         == Prepended(Merge([key] + rest, c, known), Merge(b, ContextAfter(rest, Entered(c, key)), known))
  {
    hide Entered, StartsList, List, Hand, KnownAt, Prepended, Item, StartsOutside, Merge, ContextAfter;
    var c', n := Entered(c, key), BodyLength(rest);
    BodyBefore(rest, b);
    AfterBody(rest, n, c');
    assert (rest + b)[..n] == rest[..n] && (rest + b)[n..] == rest[n..] + b && [key] + rest + b == [key] + (rest + b);
    MergeAtKey(key, rest, c, known);
    MergeAtKey(key, rest + b, c, known);
    PrependedAgain(List(Hand(rest[..n], false), KnownAt(known, c')), Merge(rest[n..], c', known),
                   Merge(b, ContextAfter(rest[n..], c'), known));
  }

  lemma {:induction false} AfterBody(lines: seq<string>, n: nat, c: Context)
    requires n == BodyLength(lines)
    ensures ContextAfter(lines[n..], c) == ContextAfter(lines, c)
  {
    BodyIsItems(lines);
    assert lines == lines[..n] + lines[n..];
    ContextMore(lines[..n], lines[n..], c);
    ItemsStay(lines[..n], c);
  }

  /**
   * The lines an address list is rewritten to, if it is not refused: its hand lines, and the known that are not among.
   */
  ghost predicate ListWritten(hand: seq<string>, generated: seq<string>, list: seq<string>) {
    if hand == [] && generated == [] then list == ["        address: []"]
    else exists block :: list == ["        address:"] + hand + block && BlockWritten(generated, block)
  }

  ghost predicate BlockWritten(generated: seq<string>, block: seq<string>) {
    if generated == [] then block == []
    else
      && |block| == |generated| + 2 && block[0] == "          " + BEGIN
      && block[|generated| + 1] == "          " + END
      && forall i | 0 <= i < |generated| :: block[i + 1] == "          - " + generated[i]
  }

  lemma {:induction false} AddressLinesAt(addresses: seq<string>)
    ensures |AddressLines(addresses)| == |addresses|
    ensures forall i | 0 <= i < |addresses| :: AddressLines(addresses)[i] == BULLET + addresses[i]
    decreases |addresses|
  {
    if addresses != [] { AddressLinesAt(addresses[1..]); }
  }

  lemma {:induction false} ListIsWritten(hand: seq<string>, known: seq<string>)
    ensures var list, generated := List(hand, known), Generated(hand, known);
      && (list.None? <==> exists x :: x in generated && !IsLowerAddress(x))
      && (list.Some? ==> ListWritten(hand, generated, list.value))
  {
    hide IsLowerAddress, Generated, Block, BlockWritten;
    BlockIsWritten(Generated(hand, known));
  }

  lemma {:induction false} BlockIsWritten(generated: seq<string>)
    ensures BlockWritten(generated, Block(generated))
  {
    if generated != [] {
      AddressLinesAt(generated);
      var first, lines, last := ITEM_INDENT + BEGIN, AddressLines(generated), ITEM_INDENT + END;
      Between(first, lines, last);
      hide AddressLines;
    }
  }

  lemma {:induction false} Between(first: string, lines: seq<string>, last: string)
    ensures var all := [first] + lines + [last];
      && |all| == |lines| + 2 && all[0] == first && all[|lines| + 1] == last
      && forall i | 0 <= i < |lines| :: all[i + 1] == lines[i]
  {
  }

  /** Of the known addresses, those that no hand line lists, whatever its case, in order. */
  lemma {:induction false} GeneratedIs(hand: seq<string>, known: seq<string>, x: string)
    ensures x in Generated(hand, known)
       <==> x in known && forall i, a | 0 <= i < |hand| && Address(hand[i]) == Some(a) :: Lower(a) != x
  {
    UnlistedHas(known, HandAddresses(hand), x);
    HandAddressesHave(hand, x);
  }

  lemma {:induction false} HandAddressesHave(hand: seq<string>, x: string)
    ensures x in HandAddresses(hand) <==> exists i, a :: 0 <= i < |hand| && Address(hand[i]) == Some(a) && Lower(a) == x
    decreases |hand|
  {
    hide Address, Lower;
    if hand != [] {
      HandAddressesHave(hand[1..], x);
      if i, a :| 0 <= i < |hand| && Address(hand[i]) == Some(a) && Lower(a) == x {
        if i > 0 { assert hand[1..][i - 1] == hand[i]; }
      }
      if i, a :| 0 <= i < |hand[1..]| && Address(hand[1..][i]) == Some(a) && Lower(a) == x {
        assert hand[i + 1] == hand[1..][i];
      }
    }
  }

  /** Listed by hand: an item that is no marker, not after a begin marker without an end marker since. */
  ghost predicate ByHand(body: seq<string>, i: nat, inGenerated: bool)
    requires i < |body|
  {
    && !IsBegin(body[i]) && !IsEnd(body[i])
    && (forall b | 0 <= b < i && IsBegin(body[b]) :: exists e :: b < e < i && IsEnd(body[e]))
    && (inGenerated ==> exists e :: 0 <= e < i && IsEnd(body[e]))
  }

  /** The hand lines are the items at these places, in order. */
  ghost predicate HandAt(body: seq<string>, hand: seq<string>, inGenerated: bool, places: seq<nat>) {
    && |places| == |hand|
    && (forall k | 0 <= k < |places| :: places[k] < |body| && body[places[k]] == hand[k])
    && (forall j, k | 0 <= j < k < |places| :: places[j] < places[k])
    && (forall i: nat | i < |body| :: ByHand(body, i, inGenerated) <==> i in places)
  }

  lemma {:induction false} HandIs(body: seq<string>, inGenerated: bool) returns (places: seq<nat>)
    ensures HandAt(body, Hand(body, inGenerated), inGenerated, places)
    decreases |body|
  {
    if body == [] {
      places := [];
    } else {
      var first, rest := body[0], body[1..];
      var now := if IsBegin(first) then true else if IsEnd(first) then false else inGenerated;
      var mine := !IsBegin(first) && !IsEnd(first) && !inGenerated;
      var after := HandIs(rest, now);
      var moved := seq(|after|, k requires 0 <= k < |after| => after[k] + 1);
      places := (if mine then [0] else []) + moved;
      FirstByHand(body, inGenerated);
      forall i: nat | 0 < i < |body| ensures ByHand(body, i, inGenerated) <==> i - 1 in after {
        LaterByHand(body, i, inGenerated, now);
      }
      assert Hand(body, inGenerated) == (if mine then [first] else []) + Hand(rest, now);
      hide ByHand, IsBegin, IsEnd, Hand;
      PlacesMoved(body, Hand(rest, now), inGenerated, after, mine);
    }
  }

  lemma {:induction false} PlacesMoved(body: seq<string>, hand: seq<string>, inGenerated: bool, after: seq<nat>,
                                       mine: bool)
    requires body != [] && |after| == |hand| && (mine <==> ByHand(body, 0, inGenerated))
    requires forall k | 0 <= k < |after| :: after[k] < |body[1..]| && body[1..][after[k]] == hand[k]
    requires forall j, k | 0 <= j < k < |after| :: after[j] < after[k]
    requires forall i: nat | 0 < i < |body| :: ByHand(body, i, inGenerated) <==> i - 1 in after
    ensures var moved := seq(|after|, k requires 0 <= k < |after| => after[k] + 1);
      HandAt(body, (if mine then [body[0]] else []) + hand, inGenerated, (if mine then [0] else []) + moved)
  {
    hide ByHand;
    var moved := seq(|after|, k requires 0 <= k < |after| => after[k] + 1);
    var places := (if mine then [0] else []) + moved;
    forall i: nat | i < |body| ensures ByHand(body, i, inGenerated) <==> i in places {
      InMoved(after, moved, i);
      assert i in places <==> (mine && i == 0) || i in moved;
    }
  }

  lemma {:induction false} InMoved(after: seq<nat>, moved: seq<nat>, i: nat)
    requires |moved| == |after| && forall k | 0 <= k < |after| :: moved[k] == after[k] + 1
    ensures i in moved <==> i > 0 && i - 1 in after
  {
    if i > 0 && i - 1 in after {
      var k :| 0 <= k < |after| && after[k] == i - 1;
      assert moved[k] == i;
    }
    if i in moved {
      var k :| 0 <= k < |moved| && moved[k] == i;
      assert after[k] == i - 1;
    }
  }

  lemma {:induction false} FirstByHand(body: seq<string>, inGenerated: bool)
    requires body != []
    ensures ByHand(body, 0, inGenerated) <==> !IsBegin(body[0]) && !IsEnd(body[0]) && !inGenerated
  {
  }

  lemma {:induction false} LaterByHand(body: seq<string>, i: nat, inGenerated: bool, now: bool)
    requires 0 < i < |body|
    requires now == if IsBegin(body[0]) then true else if IsEnd(body[0]) then false else inGenerated
    ensures ByHand(body, i, inGenerated) <==> ByHand(body[1..], i - 1, now)
  {
    hide IsBegin, IsEnd;
    var rest := body[1..];
    assert forall j | 0 <= j < |rest| :: rest[j] == body[j + 1];
    if ByHand(body, i, inGenerated) {
      forall b | 0 <= b < i - 1 && IsBegin(rest[b]) ensures exists e :: b < e < i - 1 && IsEnd(rest[e]) {
        var e :| b + 1 < e < i && IsEnd(body[e]);
        assert IsEnd(rest[e - 1]);
      }
      if now {
        var e :| 0 <= e < i && IsEnd(body[e]) && e > 0;
        assert IsEnd(rest[e - 1]);
      }
    }
    if ByHand(rest, i - 1, now) {
      forall b | 0 <= b < i && IsBegin(body[b]) ensures exists e :: b < e < i && IsEnd(body[e]) {
        var e :| (if b > 0 then b - 1 else -1) < e < i - 1 && IsEnd(rest[e]);
        assert IsEnd(body[e + 1]);
      }
      if inGenerated && !IsEnd(body[0]) {
        var e :| 0 <= e < i - 1 && IsEnd(rest[e]);
        assert IsEnd(body[e + 1]);
      }
    }
  }

  /**
   * The rewritten text around any address list: the lines before and after it as they are rewritten on their own, and
   * in its place its hand lines and the addresses known of its chain and contract that none of them lists.
   */
  lemma {:induction false} ListInPlace(before: seq<string>, key: string, body: seq<string>, after: seq<string>, id: nat,
                                       name: string, known: Known)
    requires StandsIn(before, id, name) && AddressKey(key) && AllItems(body) && StartsOutside(after)
    ensures var list := List(Hand(body, false), ListOf(known, (id, name)));
      Merge(before + [key] + body + after, START, known)
      == Prepended(Merge(before, START, known),
                   Prepended(list, Merge(after, Context(Some(id), Some(name)), known)))
  {
    var c := ContextAfter(before, START);
    StandsInExactly(before, id, name);
    KeyIsOnlyKey(key);
    var rest := [key] + body + after;
    assert before + [key] + body + after == before + rest && rest[0] == key && rest[1..] == body + after;
    MergeSplits(before, rest, START, known);
    EnteredKey(c, key);
    BodyThenOutside(body, after);
    assert (body + after)[..|body|] == body && (body + after)[|body|..] == after;
    assert rest == [key] + (body + after);
    assert KnownAt(known, c) == ListOf(known, (id, name));
    hide Entered, List, Hand, KnownAt, ListOf, Prepended, Merge, ContextAfter, BodyLength, AddressKey;
    MergeAtKey(key, body + after, c, known);
  }

  /** Any other line, outside the lists, stays as it is. */
  lemma {:induction false} LineStays(before: seq<string>, line: string, after: seq<string>, known: Known)
    requires StartsOutside([line]) && !StartsList(ContextAfter(before + [line], START), line)
    ensures Merge(before + [line] + after, START, known)
         == Prepended(Merge(before, START, known),
                      Prepended(Some([line]), Merge(after, ContextAfter(before + [line], START), known)))
  {
    var c := ContextAfter(before, START);
    assert before + [line] + after == before + ([line] + after);
    MergeSplits(before, [line] + after, START, known);
    ContextMore(before, [line], START);
    assert [line][..0] == [] && ([line] + after)[1..] == after;
  }
}
