/** The kitchen label (src/utils/receiptPrinter.js): item lines, six blank lines, the
    restaurant line and the customer name, joined by newlines. */
module ReceiptPrinter {
  import opened Wrappers
  import opened Model

  // ---------------------------------------------------------------- text pieces

  /** `toUpperCase`, for ASCII letters. */
  function Upper(s: string): (r: string)
    ensures |r| == |s|
    ensures forall i :: 0 <= i < |s| ==>
      r[i] == if 'a' <= s[i] <= 'z' then (s[i] as int - 32) as char else s[i]
  {
    if s == [] then []
    else
      var c := s[0];
      [if 'a' <= c <= 'z' then (c as int - 32) as char else c] + Upper(s[1..])
  }

  /** Upper-casing twice is upper-casing once, and leaves no ASCII lower-case letter. */
  lemma UpperIdempotent(s: string)
    ensures Upper(Upper(s)) == Upper(s)
    ensures forall i :: 0 <= i < |s| ==> !('a' <= Upper(s)[i] <= 'z')
  {
  }

  function Digit(d: int): char
    requires 0 <= d < 10
  {
    ('0' as int + d) as char
  }

  /** The decimal text of a number, as a template literal prints it. */
  function Decimal(n: nat): (r: string)
    ensures r != []
    ensures forall i :: 0 <= i < |r| ==> '0' <= r[i] <= '9'
  {
    if n < 10 then [Digit(n)] else Decimal(n / 10) + [Digit(n % 10)]
  }

  /** The number a digit string denotes. */
  function DecimalValue(s: string): int
    requires forall i :: 0 <= i < |s| ==> '0' <= s[i] <= '9'
  {
    if s == [] then 0 else 10 * DecimalValue(s[..|s| - 1]) + (s[|s| - 1] as int - '0' as int)
  }

  /** Reading the number back gives the number. */
  lemma {:induction false} DecimalRoundTrip(n: nat)
    ensures DecimalValue(Decimal(n)) == n
  {
    if n >= 10 {
      var s := Decimal(n);
      assert s[..|s| - 1] == Decimal(n / 10);
      DecimalRoundTrip(n / 10);
    }
  }

  /** `lines.join(sep)` for a one-character separator. */
  function Join(lines: seq<string>, sep: char): string {
    if |lines| == 0 then ""
    else if |lines| == 1 then lines[0]
    else Join(lines[..|lines| - 1], sep) + [sep] + lines[|lines| - 1]
  }

  /** The last position of `c` in `s`, or -1. */
  function LastIndex(s: string, c: char): (r: int)
    ensures -1 <= r < |s|
    ensures r >= 0 ==> s[r] == c
    ensures forall i :: r < i < |s| ==> s[i] != c
  {
    if s == [] then -1
    else if s[|s| - 1] == c then |s| - 1
    else LastIndex(s[..|s| - 1], c)
  }

  /** `s.split(sep)`: the text between separators. */
  function Split(s: string, sep: char): (r: seq<string>)
    ensures |r| > 0
    decreases |s|
  {
    var i := LastIndex(s, sep);
    if i == -1 then [s] else Split(s[..i], sep) + [s[i + 1..]]
  }

  /** Splitting after a last separator splits what precedes it and keeps what follows. */
  lemma SplitAfterLast(prefix: string, sep: char, last: string)
    requires sep !in last
    ensures Split(prefix + [sep] + last, sep) == Split(prefix, sep) + [last]
  {
    var s := prefix + [sep] + last;
    assert s[|prefix|] == sep;
    forall i | |prefix| < i < |s| ensures s[i] != sep {
      assert s[i] == last[i - |prefix| - 1];
    }
    assert LastIndex(s, sep) == |prefix|;
    assert s[..|prefix|] == prefix;
    assert s[|prefix| + 1..] == last;
  }

  /** Splitting a joined text gives the lines back when no line contains the separator. */
  lemma {:induction false} SplitJoin(lines: seq<string>, sep: char)
    requires |lines| > 0
    requires forall k :: 0 <= k < |lines| ==> sep !in lines[k]
    ensures Split(Join(lines, sep), sep) == lines
  {
    if |lines| == 1 {
      assert LastIndex(lines[0], sep) == -1;
    } else {
      var init := lines[..|lines| - 1];
      SplitJoin(init, sep);
      SplitAfterLast(Join(init, sep), sep, lines[|lines| - 1]);
    }
  }

  // ---------------------------------------------------------------- the label

  /** `${n}. ${size || 'Standard'} ${name} (${crust || 'Original'})`. */
  function HeaderLine(item: Item, n: nat): string {
    Decimal(n) + ". " + OrElse(item.size, "Standard") + " " + item.name + " (" + OrElse(item.crust, "Original") + ")"
  }

  /** `toppings && toppings.length > 0`. */
  predicate HasToppings(t: Toppings) {
    match t
    case NoToppings => false
    case ToppingList(labels) => |labels| > 0
    case ToppingText(text) => |text| > 0
  }

  /** `labels.join(', ')`. */
  function CommaJoin(labels: seq<string>): string {
    if |labels| == 0 then ""
    else if |labels| == 1 then labels[0]
    else CommaJoin(labels[..|labels| - 1]) + ", " + labels[|labels| - 1]
  }

  function ToppingsLine(t: Toppings): string
    requires HasToppings(t)
  {
    "   + " + (if t.ToppingList? then CommaJoin(t.labels) else t.text)
  }

  function NoteLine(notes: string): string {
    "   [NOTE: " + notes + "]"
  }

  /** The lines item number `n` contributes. */
  function ItemLines(item: Item, n: nat): (r: seq<string>)
    ensures |r| >= 1 && r[0] == HeaderLine(item, n)
  {
    [HeaderLine(item, n)]
    + (if HasToppings(item.toppings) then [ToppingsLine(item.toppings)] else [])
    + (if Filled(item.notes) then [NoteLine(item.notes.value)] else [])
  }

  /** The item part for a list of items, numbered from 1. */
  function ItemsLines(items: seq<Item>): seq<string> {
    if items == [] then []
    else ItemsLines(items[..|items| - 1]) + ItemLines(items[|items| - 1], |items|)
  }

  const Palace: string := "~ Pizza Palace ~"
  const BlankLines: seq<string> := ["", "", "", "", "", ""]

  /** `*** ${(name || 'GUEST').toUpperCase()} ***`. */
  function NameLine(customer: Customer): string {
    "*** " + Upper(OrElse(customer.name, "GUEST")) + " ***"
  }

  /** All the lines of the label, top to bottom. */
  function LabelLines(order: Order): seq<string> {
    ItemsLines(order.items) + BlankLines + [Palace, NameLine(order.customer)]
  }

  /** `generateLabelText(order)`, building the lines as the code pushes them. */
  method GenerateLabelText(order: Order) returns (text: string)
    ensures text == Join(LabelLines(order), '\n')
  {
    var lines: seq<string> := [];
    var n := 0;
    while n < |order.items|
      invariant 0 <= n <= |order.items|
      invariant lines == ItemsLines(order.items[..n])
    {
      ItemsLinesStep(order.items, n);
      lines := PushItemLines(lines, order.items[n], n + 1);
      n := n + 1;
    }
    assert order.items[..n] == order.items;
    var k := 0;
    while k < 6
      invariant 0 <= k <= 6
      invariant lines == ItemsLines(order.items) + BlankLines[..k]
    {
      BlankLinesStep(k);
      lines := lines + [""];
      k := k + 1;
    }
    ghost var body := lines;
    lines := lines + [Palace];
    lines := lines + [NameLine(order.customer)];
    LabelLinesAfterBlanks(order, body, lines);
    text := Join(lines, '\n');
  }

  /** The six blank lines, then the shop line and the name line, complete the label. */
  lemma LabelLinesAfterBlanks(order: Order, body: seq<string>, lines: seq<string>)
    requires body == ItemsLines(order.items) + BlankLines[..6]
    requires lines == body + [Palace] + [NameLine(order.customer)]
    ensures lines == LabelLines(order)
  {
    assert BlankLines[..6] == BlankLines;
  }

  /** The pushes for one item: its header, then its toppings and note lines when present. */
  method PushItemLines(lines: seq<string>, item: Item, n: nat) returns (out: seq<string>)
    ensures out == lines + ItemLines(item, n)
  {
    var chunk := [HeaderLine(item, n)];
    if HasToppings(item.toppings) {
      chunk := chunk + [ToppingsLine(item.toppings)];
    }
    if Filled(item.notes) {
      chunk := chunk + [NoteLine(item.notes.value)];
    }
    out := lines + chunk;
  }

  /** One more item adds that item's lines, numbered from one. */
  lemma ItemsLinesStep(items: seq<Item>, n: nat)
    requires n < |items|
    ensures ItemsLines(items[..n + 1]) == ItemsLines(items[..n]) + ItemLines(items[n], n + 1)
  {
    var done := items[..n + 1];
    assert done[..|done| - 1] == items[..n];
  }

  lemma BlankLinesStep(k: nat)
    requires k < 6
    ensures BlankLines[..k + 1] == BlankLines[..k] + [""]
  {
  }

  /** How many lines an item contributes. */
  function Weight(item: Item): nat {
    1 + (if HasToppings(item.toppings) then 1 else 0) + (if Filled(item.notes) then 1 else 0)
  }

  function TotalWeight(items: seq<Item>): nat {
    if items == [] then 0 else TotalWeight(items[..|items| - 1]) + Weight(items[|items| - 1])
  }

  lemma {:induction false} ItemsLinesLength(items: seq<Item>)
    ensures |ItemsLines(items)| == TotalWeight(items)
  {
    if items != [] {
      ItemsLinesLength(items[..|items| - 1]);
    }
  }

  /** The header of item `k` sits where the lines of the items before it end, numbered `k + 1`. */
  lemma {:induction false} HeaderPosition(items: seq<Item>, k: int)
    requires 0 <= k < |items|
    ensures TotalWeight(items[..k]) < |ItemsLines(items)|
    ensures ItemsLines(items)[TotalWeight(items[..k])] == HeaderLine(items[k], k + 1)
  {
    var init := items[..|items| - 1];
    ItemsLinesLength(init);
    if k == |items| - 1 {
      assert items[..k] == init;
    } else {
      assert init[..k] == items[..k];
      HeaderPosition(init, k);
    }
  }

  /** The layout: the item lines, exactly six empty lines, the restaurant line, and the name
      line last; in all, one line per item plus one per toppings line and note, plus 8. */
  lemma LabelLayout(order: Order)
    ensures var lines := LabelLines(order);
      |lines| == TotalWeight(order.items) + 8
      && lines[|lines| - 1] == NameLine(order.customer)
      && lines[|lines| - 2] == Palace
      && (forall i :: |lines| - 8 <= i < |lines| - 2 ==> lines[i] == "")
      && lines[..|lines| - 8] == ItemsLines(order.items)
  {
    ItemsLinesLength(order.items);
  }
}
