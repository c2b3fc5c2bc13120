/** The packet filter of pcapper's -m option: pcprintf expands %i and %m of a template into a buffer of
    limited length, and main uses what is left of the buffer as the filter. */
module FilterTemplate {
  import opened CText

  const NUL: char := '\0'

  // ----- what a template means -----

  /** A piece of a template.  Addresses are written by snprintf, other characters on their own. */
  datatype Item = Address(text: string) | Escaped(c: char) | Literal(c: char)

  function TextOf(item: Item): string { if item.Address? then item.text else [item.c] }

  /** What pcprintf adds to its result for an item. */
  function CountOf(item: Item): nat { if item.Literal? then 0 else |TextOf(item)| }

  /** The items of a template.  A percent sign at its end is dropped. */
  function Items(format: string, ip: string, mac: string): seq<Item> {
    if format == "" then []
    else if format[0] != '%' then [Literal(format[0])] + Items(format[1..], ip, mac)
    else if |format| == 1 then []
    else [ItemFor(format[1], ip, mac)] + Items(format[2..], ip, mac)
  }

  /** The items from character s on. */
  function ItemsFrom(format: string, s: nat, ip: string, mac: string): seq<Item>
    requires s <= |format|
  {
    Items(format[s..], ip, mac)
  }

  lemma NextItem(format: string, s: nat, ip: string, mac: string)
    requires s < |format|
    ensures ItemsFrom(format, s, ip, mac) ==
              if format[s] != '%' then [Literal(format[s])] + ItemsFrom(format, s + 1, ip, mac)
              else if s + 1 == |format| then []
              else [ItemFor(format[s + 1], ip, mac)] + ItemsFrom(format, s + 2, ip, mac)
  {
    var rest := format[s..];
    assert rest[1..] == format[s + 1..];
    if |rest| >= 2 { assert rest[2..] == format[s + 2..]; }
  }

  lemma NothingLeft(format: string, ip: string, mac: string)
    ensures ItemsFrom(format, |format|, ip, mac) == [] && ItemsFrom(format, 0, ip, mac) == Items(format, ip, mac)
  {
    assert format[0..] == format;
  }

  /** What follows a percent sign. */
  function ItemFor(c: char, ip: string, mac: string): Item {
    if c == 'i' then Address(ip) else if c == 'm' then Address(mac) else Escaped(c)
  }

  /** The expansion. */
  function Text(items: seq<Item>): string {
    if items == [] then [] else TextOf(items[0]) + Text(items[1..])
  }

  function Count(items: seq<Item>): nat {
    if items == [] then 0 else CountOf(items[0]) + Count(items[1..])
  }

  /** Whether character k of the expansion comes from an address. */
  predicate InAddress(items: seq<Item>, k: nat) {
    items != [] &&
    if k < |TextOf(items[0])| then items[0].Address? else InAddress(items[1..], k - |TextOf(items[0])|)
  }

  /** The last thing written was an address, which snprintf terminates. */
  predicate EndsInAddress(items: seq<Item>) { items != [] && items[|items| - 1].Address? }

  // ----- templates in plain text -----

  function Expansion(format: string, ip: string, mac: string): string { Text(Items(format, ip, mac)) }

  lemma TextCons(item: Item, items: seq<Item>)
    ensures Text([item] + items) == TextOf(item) + Text(items)
  {
    assert ([item] + items)[1..] == items;
  }

  /** Plain characters stand for themselves. */
  lemma {:induction false} PlainText(a: string, b: string, ip: string, mac: string)
    requires '%' !in a
    ensures Expansion(a + b, ip, mac) == a + Expansion(b, ip, mac)
  {
    if a == "" {
      assert a + b == b;
    } else {
      PlainText(a[1..], b, ip, mac);
      assert (a + b)[1..] == a[1..] + b;
      TextCons(Literal(a[0]), Items(a[1..] + b, ip, mac));
      assert [a[0]] + a[1..] == a;
    }
  }

  /** %i is the address, %m the hardware address, a percent sign before any other character is that character, and
      one at the end is nothing. */
  lemma PercentSigns(b: string, c: char, ip: string, mac: string)
    ensures Expansion("%i" + b, ip, mac) == ip + Expansion(b, ip, mac)
    ensures Expansion("%m" + b, ip, mac) == mac + Expansion(b, ip, mac)
    ensures c != 'i' && c != 'm' ==> Expansion(['%', c] + b, ip, mac) == [c] + Expansion(b, ip, mac)
    ensures Expansion("%", ip, mac) == "" && Expansion("", ip, mac) == ""
  {
    PercentSign('i', b, ip, mac);
    PercentSign('m', b, ip, mac);
    PercentSign(c, b, ip, mac);
    assert "%i" == ['%', 'i'] && "%m" == ['%', 'm'];
  }

  lemma PercentSign(c: char, b: string, ip: string, mac: string)
    ensures Expansion(['%', c] + b, ip, mac) == TextOf(ItemFor(c, ip, mac)) + Expansion(b, ip, mac)
  {
    var format := ['%', c] + b;
    assert format[2..] == b;
    TextCons(ItemFor(c, ip, mac), Items(b, ip, mac));
  }

  // ----- what is written -----

  /** The text written, whether a NUL follows it, and the value returned. */
  datatype Filled = Filled(text: string, nul: bool, rv: nat)

  /** Writing the items into a given room, until one does not fit. */
  function Fill(items: seq<Item>, room: nat): Filled {
    if items == [] || room == 0 then Filled([], false, 0)
    else if items[0].Address? && |items[0].text| >= room then
      Filled(items[0].text[..room - 1], true, |items[0].text|)
    else
      Then(TextOf(items[0]), items[0].Address?, CountOf(items[0]), Fill(items[1..], room - |TextOf(items[0])|))
  }

  /** Text, a NUL after it if terminated, and then more. */
  function Then(text: string, terminated: bool, n: nat, rest: Filled): Filled {
    Filled(text + rest.text, rest.nul || (terminated && rest.text == []), n + rest.rv)
  }

  /** With t written, the items left make up the goal. */
  ghost predicate Progress(goal: Filled, t: string, nul: bool, n: nat, items: seq<Item>, len: nat) {
    |t| <= len && goal == Then(t, nul, n, Fill(items, len - |t|))
  }

  lemma Finished(goal: Filled, t: string, nul: bool, n: nat, items: seq<Item>, len: nat)
    requires Progress(goal, t, nul, n, items, len) && (items == [] || |t| == len)
    ensures goal == Filled(t, nul, n)
  {
  }

  lemma AddressFits(goal: Filled, t: string, nul: bool, n: nat, text: string, rest: seq<Item>, len: nat)
    requires Progress(goal, t, nul, n, [Address(text)] + rest, len) && |t| + |text| < len
    ensures Progress(goal, t + text, true, n + |text|, rest, len)
  {
    var room := len - |t| - |text|;
    assert ([Address(text)] + rest)[1..] == rest;
    assert t + (text + Fill(rest, room).text) == t + text + Fill(rest, room).text;
  }

  lemma AddressIsCut(goal: Filled, t: string, nul: bool, n: nat, text: string, rest: seq<Item>, len: nat)
    requires Progress(goal, t, nul, n, [Address(text)] + rest, len) && |t| < len <= |t| + |text|
    ensures goal == Filled(t + text[..len - |t| - 1], true, n + |text|)
  {
  }

  lemma CharFits(goal: Filled, t: string, nul: bool, n: nat, item: Item, rest: seq<Item>, len: nat, n': nat)
    requires Progress(goal, t, nul, n, [item] + rest, len) && |t| < len && !item.Address? && n' == n + CountOf(item)
    ensures Progress(goal, t + [item.c], false, n', rest, len)
  {
    var room := len - |t| - 1;
    assert ([item] + rest)[1..] == rest;
    assert t + ([item.c] + Fill(rest, room).text) == t + [item.c] + Fill(rest, room).text;
  }

  function Size(text: string, nul: bool): nat { |text| + if nul then 1 else 0 }

  /** The buffer after writing: old contents past the text and its NUL are untouched. */
  function After(before: string, text: string, nul: bool): (after: string)
    requires Size(text, nul) <= |before|
    ensures |after| == |before|
  {
    text + (if nul then [NUL] else []) + before[Size(text, nul)..]
  }

  // ----- pcprintf -----

  /** What snprintf does with a text without percent signs and a given room. */
  method PutString(dest: array<char>, d: nat, avail: nat, text: string) returns (count: nat)
    requires avail >= 1 && d + avail <= dest.Length
    requires '%' !in text
    modifies dest
    ensures count == |text|
    ensures var n := if |text| < avail then |text| else avail - 1;
            && (forall j :: 0 <= j < n ==> dest[d + j] == text[j]) && dest[d + n] == NUL
            && (forall j :: 0 <= j < dest.Length && !(d <= j <= d + n) ==> dest[j] == old(dest[j]))
  {
    var k := 0;
    while k < |text| && k < avail - 1
      invariant k <= |text| && k <= avail - 1
      invariant forall j :: 0 <= j < k ==> dest[d + j] == text[j]
      invariant forall j :: 0 <= j < dest.Length && !(d <= j < d + k) ==> dest[j] == old(dest[j])
    {
      dest[d + k] := text[k];
      k := k + 1;
    }
    dest[d + k] := NUL;
    count := |text|;
  }

  /** The bytes of an address replace what came after the text so far. */
  lemma AddressIsWritten(before: string, t: string, nul: bool, more: string, now: string, after: string)
    requires |t| + |more| + 1 <= |before| && Size(t, nul) <= |before| && now == After(before, t, nul)
    requires |after| == |before|
    requires forall j :: 0 <= j < |more| ==> after[|t| + j] == more[j]
    requires after[|t| + |more|] == NUL
    requires forall j :: 0 <= j < |before| && !(|t| <= j <= |t| + |more|) ==> after[j] == now[j]
    ensures after == After(before, t + more, true)
  {
    var expected := After(before, t + more, true);
    forall j | 0 <= j < |before| ensures after[j] == expected[j] {
      if |t| <= j < |t| + |more| {
        assert after[|t| + (j - |t|)] == more[j - |t|];
      }
    }
  }

  method WriteAddress(dest: array<char>, d: nat, len: nat, text: string,
                      ghost before: string, ghost t: string, ghost nul: bool)
    returns (count: nat)
    requires d == |t| < len <= dest.Length == |before| && dest[..] == After(before, t, nul) && '%' !in text
    modifies dest
    ensures count == |text|
    ensures dest[..] == After(before, t + if |text| < len - d then text else text[..len - d - 1], true)
  {
    ghost var now := dest[..];
    count := PutString(dest, d, len - d, text);
    AddressIsWritten(before, t, nul, if |text| < len - d then text else text[..len - d - 1], now, dest[..]);
  }

  method WriteChar(dest: array<char>, d: nat, c: char, ghost before: string, ghost t: string, ghost nul: bool)
    requires d == |t| < dest.Length == |before| && dest[..] == After(before, t, nul)
    modifies dest
    ensures dest[..] == After(before, t + [c], false)
  {
    dest[d] := c;
  }

  /** The switch on the character after a percent sign. */
  method WriteEscape(dest: array<char>, d: nat, len: nat, c: char, ip: string, mac: string, ghost before: string,
                     ghost goal: Filled, ghost t: string, ghost nul: bool, ghost n: nat, ghost rest: seq<Item>)
    returns (count: nat, ghost t': string, ghost nul': bool)
    requires d == |t| < len <= dest.Length == |before| && dest[..] == After(before, t, nul)
    requires '%' !in ip && '%' !in mac
    requires Progress(goal, t, nul, n, [ItemFor(c, ip, mac)] + rest, len)
    modifies dest
    ensures Size(t', nul') <= len && dest[..] == After(before, t', nul')
    ensures count >= len - d ==> goal == Filled(t', nul', n + count)
    ensures count < len - d ==> |t'| == d + count && Progress(goal, t', nul', n + count, rest, len)
  {
    if c == 'i' || c == 'm' {
      var text := if c == 'i' then ip else mac;
      count := WriteAddress(dest, d, len, text, before, t, nul);
      t', nul' := t + (if |text| < len - d then text else text[..len - d - 1]), true;
      if |text| < len - d {
        AddressFits(goal, t, nul, n, text, rest, len);
      } else {
        AddressIsCut(goal, t, nul, n, text, rest, len);
      }
    } else {
      count := 1;
      WriteChar(dest, d, c, before, t, nul);
      t', nul' := t + [c], false;
      CharFits(goal, t, nul, n, Escaped(c), rest, len, n + 1);
      if len - d == 1 { Finished(goal, t', nul', n + 1, rest, len); }
    }
  }

  method WriteLiteral(dest: array<char>, d: nat, len: nat, c: char, ghost before: string, ghost goal: Filled,
                      ghost t: string, ghost nul: bool, ghost n: nat, ghost rest: seq<Item>)
    returns (ghost t': string)
    requires d == |t| < len <= dest.Length == |before| && dest[..] == After(before, t, nul)
    requires Progress(goal, t, nul, n, [Literal(c)] + rest, len)
    modifies dest
    ensures |t'| == d + 1 && dest[..] == After(before, t', false)
    ensures Progress(goal, t', false, n, rest, len)
  {
    WriteChar(dest, d, c, before, t, nul);
    CharFits(goal, t, nul, n, Literal(c), rest, len, n);
    t' := t + [c];
  }

  /** One round of pcprintf's loop: next is the template character to go on with, or the template's length
      if there is nothing left to do. */
  method WriteNext(dest: array<char>, s: nat, d: nat, len: nat, format: string, ip: string, mac: string, n: nat,
                   ghost before: string, ghost goal: Filled, ghost t: string, ghost nul: bool)
    returns (next: nat, n': nat, d': nat, ghost t': string, ghost nul': bool)
    requires s < |format| && d == |t| < len <= dest.Length == |before| && dest[..] == After(before, t, nul)
    requires '%' !in ip && '%' !in mac
    requires Progress(goal, t, nul, n, ItemsFrom(format, s, ip, mac), len)
    modifies dest
    ensures s < next <= |format| && Size(t', nul') <= len && dest[..] == After(before, t', nul')
    ensures next == |format| ==> goal == Filled(t', nul', n')
    ensures next < |format| ==> d' == |t'| && Progress(goal, t', nul', n', ItemsFrom(format, next, ip, mac), len)
  {
    NextItem(format, s, ip, mac);
    NothingLeft(format, ip, mac);
    if format[s] != '%' {
      ghost var rest := ItemsFrom(format, s + 1, ip, mac);
      t' := WriteLiteral(dest, d, len, format[s], before, goal, t, nul, n, rest);
      next, n', d', nul' := s + 1, n, d + 1, false;
      if next == |format| { Finished(goal, t', nul', n', rest, len); }
    } else if s + 1 == |format| {
      Finished(goal, t, nul, n, [], len);
      next, n', d', t', nul' := |format|, n, d, t, nul;
    } else {
      ghost var rest := ItemsFrom(format, s + 2, ip, mac);
      var count;
      count, t', nul' := WriteEscape(dest, d, len, format[s + 1], ip, mac, before, goal, t, nul, n, rest);
      n', d' := n + count, d + count;
      next := if count >= len - d then |format| else s + 2;
      if count < len - d && next == |format| { Finished(goal, t', nul', n', rest, len); }
    }
  }

  /** pcprintf. */
  method Pcprintf(dest: array<char>, len: nat, format: string, ip: string, mac: string) returns (rv: nat)
    requires len <= dest.Length && '%' !in ip && '%' !in mac
    modifies dest
    ensures var w := Fill(Items(format, ip, mac), len);
            && Size(w.text, w.nul) <= len && rv == w.rv
            && dest[..] == After(old(dest[..]), w.text, w.nul)
  {
    ghost var before, goal := dest[..], Fill(Items(format, ip, mac), len);
    ghost var t: string, nul := [], false;
    var s, d := 0, 0;
    rv := 0;
    NothingLeft(format, ip, mac);
    if |format| == 0 { Finished(goal, t, nul, rv, [], len); }
    while s < |format| && d < len
      invariant s <= |format| && Size(t, nul) <= len && dest[..] == After(before, t, nul)
      invariant s == |format| ==> goal == Filled(t, nul, rv)
      invariant s < |format| ==> d == |t| && Progress(goal, t, nul, rv, ItemsFrom(format, s, ip, mac), len)
      decreases |format| - s
    {
      s, rv, d, t, nul := WriteNext(dest, s, d, len, format, ip, mac, rv, before, goal, t, nul);
    }
    if s < |format| {
      Finished(goal, t, nul, rv, ItemsFrom(format, s, ip, mac), len);
    }
  }

  // ----- what is written against what the template means -----

  lemma {:induction false} NoTextIsAddresses(items: seq<Item>)
    requires items != [] && Text(items) == []
    ensures EndsInAddress(items)
  {
    if |items| > 1 { NoTextIsAddresses(items[1..]); }
  }

  /** Without running out of room, exactly the expansion is written, it is terminated if its last item is an
      address, and the result counts everything but literal characters. */
  lemma {:induction false} FillFits(items: seq<Item>, room: nat)
    requires |Text(items)| < room
    ensures Fill(items, room) == Filled(Text(items), EndsInAddress(items), Count(items))
  {
    if items != [] {
      FillFits(items[1..], room - |TextOf(items[0])|);
      if |items| > 1 && Text(items[1..]) == [] { NoTextIsAddresses(items[1..]); }
    }
  }

  /** Otherwise a prefix of it fills the room: all but one character and a NUL if the room ends within an
      address, and all characters and no NUL if it ends with any other character. */
  lemma {:induction false} FillOverflows(items: seq<Item>, room: nat)
    requires 0 < room <= |Text(items)|
    ensures var w, cut := Fill(items, room), InAddress(items, room - 1);
            w.nul == cut && w.text == Text(items)[..if cut then room - 1 else room]
  {
    var n := |TextOf(items[0])|;
    if n < room { FillOverflows(items[1..], room - n); }
  }

  /** The whole expansion is written exactly if it is shorter than the room, or as long and not ending in an
      address. */
  lemma WrittenInFullIff(items: seq<Item>, room: nat)
    requires room > 0
    ensures var e := Text(items);
            Fill(items, room).text == e <==> |e| < room || (|e| == room && !InAddress(items, room - 1))
  {
    if |Text(items)| < room { FillFits(items, room); } else { FillOverflows(items, room); }
  }

  /** The value returned: every item that was begun counts with its full length, an address that was cut no less, but
      literal characters do not count. */
  lemma {:induction false} ResultCountsBegun(items: seq<Item>, room: nat, m: nat)
    requires m <= |items| && forall j :: 0 <= j < m ==> |Text(items[..j])| < room
    requires m == |items| || |Text(items[..m])| >= room
    ensures Fill(items, room).rv == Count(items[..m])
  {
    if m == 0 {
      assert items[..0] == [];
    } else {
      var n := |TextOf(items[0])|;
      assert items[..0] == [];
      assert items[..m][1..] == items[1..][..m - 1];
      if items[0].Address? && n >= room {
        if m > 1 {
          PrefixText(items, 1);
          assert false;
        }
        assert items[..1][1..] == [];
      } else {
        forall j | 0 <= j < m - 1 ensures |Text(items[1..][..j])| < room - n {
          PrefixText(items, j + 1);
          assert |Text(items[..j + 1])| < room;
        }
        PrefixText(items, m);
        ResultCountsBegun(items[1..], room - n, m - 1);
      }
    }
  }

  lemma PrefixText(items: seq<Item>, j: nat)
    requires 0 < j <= |items|
    ensures Text(items[..j]) == TextOf(items[0]) + Text(items[1..][..j - 1])
  {
    assert items[..j][1..] == items[1..][..j - 1];
  }

  function Literals(items: seq<Item>): nat {
    if items == [] then 0 else Literals(items[1..]) + if items[0].Literal? then 1 else 0
  }

  lemma {:induction false} CountIsRest(items: seq<Item>)
    ensures Count(items) + Literals(items) == |Text(items)|
  {
    if items != [] { CountIsRest(items[1..]); }
  }

  // ----- the filter -----

  /** BUFSIZ and IFNAMSIZ of Linux. */
  const FILTERLEN: nat := 8192
  const IFNAMSIZ: nat := 16

  function FilterBuffer(before: string, items: seq<Item>): string
    requires |before| == FILTERLEN
  {
    var w := Fill(items, FILTERLEN - 1);
    FillIsBounded(items, FILTERLEN - 1);
    After(before, w.text, w.nul)[IFNAMSIZ - 1 := NUL]
  }

  lemma FillIsBounded(items: seq<Item>, room: nat)
    requires room > 0
    ensures Size(Fill(items, room).text, Fill(items, room).nul) <= room
  {
    if |Text(items)| < room { FillFits(items, room); } else { FillOverflows(items, room); }
  }

  /** The end of main's filter set-up for a template: the buffer starts with whatever was on the stack. */
  method BuildFilter(filterstr: array<char>, format: string, ip: string, mac: string)
    requires filterstr.Length == FILTERLEN && '%' !in ip && '%' !in mac
    modifies filterstr
    ensures filterstr[..] == FilterBuffer(old(filterstr[..]), Items(format, ip, mac))
  {
    var _ := Pcprintf(filterstr, FILTERLEN - 1, format, ip, mac);
    filterstr[IFNAMSIZ - 1] := NUL;
  }

  /** The first n characters are e and the next is NUL, or not. */
  lemma CutAfter(s: string, e: string)
    requires |e| < |s| && NUL !in e && s[..|e|] == e
    ensures CutAt(s, NUL) == e <==> s[|e|] == NUL
  {
    FindIsFirst(s, NUL);
    var k := Find(s, NUL);
    assert forall j :: 0 <= j < |e| ==> s[j] == e[j];
    if s[|e|] == NUL { assert k == |e|; }
  }

  /** The terminator goes to the size of an interface name, so at most 15 characters of a template survive;
      a shorter expansion is only in force if something terminates it. */
  lemma FilterIsExpansionIff(before: string, items: seq<Item>)
    requires |before| == FILTERLEN && NUL !in Text(items)
    ensures var e := Text(items);
            CutAt(FilterBuffer(before, items), NUL) == e <==>
              |e| == 15 || (|e| < 15 && (EndsInAddress(items) || before[|e|] == NUL))
  {
    var e, limit, buf, w := Text(items), IFNAMSIZ - 1, FilterBuffer(before, items), Fill(items, FILTERLEN - 1);
    if |e| < limit {
      FillFits(items, FILTERLEN - 1);
      CutAfter(buf, e);
    } else {
      WritesPrefix(items, FILTERLEN - 1, limit);
      assert buf[..limit] == e[..limit];
      CutAfter(buf, e[..limit]);
      assert CutAt(buf, NUL) == e[..limit];
    }
  }

  lemma WritesPrefix(items: seq<Item>, room: nat, n: nat)
    requires n < room && n <= |Text(items)|
    ensures n <= |Fill(items, room).text| && Fill(items, room).text[..n] == Text(items)[..n]
  {
    if |Text(items)| < room { FillFits(items, room); } else { FillOverflows(items, room); }
  }

  /** No template that names the hardware address, which is 17 characters long, is used in full. */
  lemma {:induction false} LongAddressesAreCut(before: string, items: seq<Item>, k: nat)
    requires |before| == FILTERLEN && NUL !in Text(items)
    requires k < |items| && items[k].Address? && |items[k].text| >= 17
    ensures CutAt(FilterBuffer(before, items), NUL) != Text(items)
  {
    TextHasItem(items, k);
    FilterIsExpansionIff(before, items);
  }

  // ----- the built-in filters -----

  datatype Mode = Source | Destination | Spoof

  function ModeFilter(mode: Mode, ip: string, mac: string): string {
    match mode
    case Source => "ether src " + mac
    case Destination => "ether src not " + mac
    case Spoof => "src " + ip + " and ether src not " + mac
  }

  function Shortened(text: string): string { if |text| < FILTERLEN - 1 then text else text[..FILTERLEN - 2] }

  function ModeBuffer(before: string, text: string): string
    requires |before| == FILTERLEN
  {
    After(before, Shortened(text), true)[IFNAMSIZ - 1 := NUL]
  }

  method WriteText(filterstr: array<char>, text: string)
    requires filterstr.Length == FILTERLEN && '%' !in text
    modifies filterstr
    ensures filterstr[..] == After(old(filterstr[..]), Shortened(text), true)
  {
    ghost var before := filterstr[..];
    NothingWritten(before, Shortened(text));
    var _ := WriteAddress(filterstr, 0, FILTERLEN - 1, text, before, [], false);
  }

  lemma NothingWritten(before: string, text: string)
    ensures After(before, [], false) == before && [] + text == text
  {
  }

  method WriteFilter(filterstr: array<char>, text: string)
    requires filterstr.Length == FILTERLEN && '%' !in text
    modifies filterstr
    ensures filterstr[..] == ModeBuffer(old(filterstr[..]), text)
  {
    WriteText(filterstr, text);
    filterstr[IFNAMSIZ - 1] := NUL;
  }

  /** The end of main's filter set-up for the other modes. */
  method BuildModeFilter(filterstr: array<char>, mode: Mode, ip: string, mac: string)
    requires filterstr.Length == FILTERLEN && '%' !in ip && '%' !in mac
    modifies filterstr
    ensures filterstr[..] == ModeBuffer(old(filterstr[..]), ModeFilter(mode, ip, mac))
  {
    WriteFilter(filterstr, ModeFilter(mode, ip, mac));
  }

  lemma FilterIsCut(before: string, text: string)
    requires |before| == FILTERLEN && NUL !in text && |text| > 15
    ensures CutAt(ModeBuffer(before, text), NUL) == text[..15]
  {
    var buf := ModeBuffer(before, text);
    assert buf[..15] == text[..15];
    CutAfter(buf, text[..15]);
  }

  /** Every built-in filter names the hardware address, but only 15 characters of it are in force: they hold five
      characters of that address, one, or none. */
  lemma BuiltInFiltersAreCut(before: string, ip: string, mac: string)
    requires |before| == FILTERLEN && NUL !in ip && NUL !in mac && |mac| >= 6
    ensures CutAt(ModeBuffer(before, ModeFilter(Source, ip, mac)), NUL) == "ether src " + mac[..5]
    ensures CutAt(ModeBuffer(before, ModeFilter(Destination, ip, mac)), NUL) == "ether src not " + mac[..1]
    ensures CutAt(ModeBuffer(before, ModeFilter(Spoof, ip, mac)), NUL)
              == ("src " + ip + " and ether src not " + mac)[..15]
  {
    assert ("ether src " + mac)[..15] == "ether src " + mac[..5];
    assert ("ether src not " + mac)[..15] == "ether src not " + mac[..1];
    FilterIsCut(before, ModeFilter(Source, ip, mac));
    FilterIsCut(before, ModeFilter(Destination, ip, mac));
    FilterIsCut(before, ModeFilter(Spoof, ip, mac));
  }

  // ----- addresses -----

  function DottedQuad(a: nat, b: nat, c: nat, d: nat): string {
    Dec(a) + "." + Dec(b) + "." + Dec(c) + "." + Dec(d)
  }

  function Hex(n: nat): (c: char)
    requires n < 16
  {
    if n < 10 then ('0' as int + n) as char else ('a' as int + (n - 10)) as char
  }

  function HexByte(n: nat): string
    requires n < 256
  {
    [Hex(n / 16), Hex(n % 16)]
  }

  /** A hardware address in the form gettmac gives it. */
  function MacText(b: seq<nat>): string
    requires |b| == 6 && forall i :: 0 <= i < 6 ==> b[i] < 256
  {
    HexByte(b[0]) + ":" + HexByte(b[1]) + ":" + HexByte(b[2]) + ":"
    + HexByte(b[3]) + ":" + HexByte(b[4]) + ":" + HexByte(b[5])
  }

  /** Neither address holds a percent sign or a NUL, so what is required of them above always holds. */
  lemma AddressesAreClean(a: nat, b: nat, c: nat, d: nat, mac: seq<nat>)
    requires |mac| == 6 && forall i :: 0 <= i < 6 ==> mac[i] < 256
    ensures '%' !in DottedQuad(a, b, c, d) && NUL !in DottedQuad(a, b, c, d)
    ensures '%' !in MacText(mac) && NUL !in MacText(mac) && |MacText(mac)| == 17
  {
    DecDigits(a);
    DecDigits(b);
    DecDigits(c);
    DecDigits(d);
  }

  /** For example. */
  lemma AddressIsDotted()
    ensures DottedQuad(192, 168, 0, 17) == "192.168.0.17"
  {
    assert Dec(192) == "192" && Dec(168) == "168" && Dec(0) == "0" && Dec(17) == "17";
  }

  lemma BytesAreHex()
    ensures HexByte(3) == "03" && HexByte(0x1a) == "1a" && HexByte(0xbc) == "bc" && HexByte(0xff) == "ff"
  {
  }

  /** And six of these with colons between them. */
  lemma HardwareAddressHasColons(b: seq<nat>, i: nat)
    requires |b| == 6 && (forall k :: 0 <= k < 6 ==> b[k] < 256) && i < 6
    ensures |MacText(b)| == 17 && MacText(b)[3 * i..3 * i + 2] == HexByte(b[i])
    ensures i < 5 ==> MacText(b)[3 * i + 2] == ':'
  {
  }

  lemma {:induction false} TextHasItem(items: seq<Item>, k: nat)
    requires k < |items|
    ensures |Text(items)| >= |TextOf(items[k])|
  {
    if k > 0 { TextHasItem(items[1..], k - 1); }
  }
}
