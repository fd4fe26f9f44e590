/** std::getline over a text, and the splitting that repeated calls do. */
module Text {
  import opened Prelude

  /** How many characters come before the first delimiter. */
  function Before(text: bytes, delimiter: byte): (n: nat)
    ensures n <= |text|
  {
    if text == [] || text[0] == delimiter then 0 else 1 + Before(text[1..], delimiter)
  }

  lemma {:induction false} BeforeSpec(text: bytes, delimiter: byte)
    ensures var n := Before(text, delimiter);
            delimiter !in text[..n] && if n < |text| then text[n] == delimiter else text[..n] == text
  {
    if text != [] && text[0] != delimiter {
      BeforeSpec(text[1..], delimiter);
      var n := Before(text[1..], delimiter);
      assert text[..n + 1] == [text[0]] + text[1..][..n];
    }
  }

  /** One std::getline: the item and what is left of the stream, or None at its end. */
  function GetLine(text: bytes, delimiter: byte): (r: Option<(bytes, bytes)>)
    ensures r.Some? ==> |r.value.1| < |text|
  {
    if text == [] then None else
    var n := Before(text, delimiter);
    Some((text[..n], if n < |text| then text[n + 1..] else []))
  }

  /** The items of a while (getline(...)) loop: an empty text has none, and one trailing empty item is dropped. */
  function Split(text: bytes, delimiter: byte): seq<bytes>
    decreases |text|
  {
    match GetLine(text, delimiter)
    case None => []
    case Some((item, rest)) => [item] + Split(rest, delimiter)
  }

  function Join(items: seq<bytes>, delimiter: byte): bytes {
    if items == [] then [] else
    if |items| == 1 then items[0] else items[0] + [delimiter] + Join(items[1..], delimiter)
  }

  /** The first delimiter is at n, or there is none before the end. */
  lemma {:induction false} BeforeIs(text: bytes, n: nat, delimiter: byte)
    requires n <= |text| && delimiter !in text[..n] && (n < |text| ==> text[n] == delimiter)
    ensures Before(text, delimiter) == n
  {
    if n > 0 {
      assert text[0] == text[..n][0];
      assert text[1..][..n - 1] == text[..n][1..];
      BeforeIs(text[1..], n - 1, delimiter);
    }
  }

  lemma SplitFirst(item: bytes, rest: bytes, delimiter: byte)
    requires delimiter !in item
    ensures Split(item + [delimiter] + rest, delimiter) == [item] + Split(rest, delimiter)
  {
    var text := item + [delimiter] + rest;
    assert text[..|item|] == item && text[|item| + 1..] == rest;
    BeforeIs(text, |item|, delimiter);
  }

  lemma SplitOne(item: bytes, delimiter: byte)
    requires delimiter !in item
    ensures Split(item, delimiter) == if item == [] then [] else [item]
  {
    assert item[..|item|] == item;
    BeforeIs(item, |item|, delimiter);
  }

  lemma {:induction false} SplitItemsHaveNoDelimiter(text: bytes, delimiter: byte)
    ensures forall i :: 0 <= i < |Split(text, delimiter)| ==> delimiter !in Split(text, delimiter)[i]
    decreases |text|
  {
    if text != [] {
      BeforeSpec(text, delimiter);
      SplitItemsHaveNoDelimiter(GetLine(text, delimiter).value.1, delimiter);
    }
  }

  /** All items but a trailing empty one. */
  function WithoutTrailingEmpty(items: seq<bytes>): seq<bytes> {
    if items == [] || (|items| == 1 && items[0] == []) then [] else [items[0]] + WithoutTrailingEmpty(items[1..])
  }

  lemma {:induction false} WithoutTrailingEmptyIsAll(items: seq<bytes>)
    ensures WithoutTrailingEmpty(items) == items <==> items == [] || items[|items| - 1] != []
    ensures |WithoutTrailingEmpty(items)| <= |items|
  {
    if items != [] {
      var rest := items[1..];
      assert items == [items[0]] + rest;
      WithoutTrailingEmptyIsAll(rest);
      if |items| > 1 {
        assert WithoutTrailingEmpty(items)[1..] == WithoutTrailingEmpty(rest);
        assert rest[|rest| - 1] == items[|items| - 1];
      }
    }
  }

  lemma {:induction false} SplitOfJoin(items: seq<bytes>, delimiter: byte)
    requires forall i :: 0 <= i < |items| ==> delimiter !in items[i]
    ensures Split(Join(items, delimiter), delimiter) == WithoutTrailingEmpty(items)
  {
    if |items| == 1 {
      SplitOne(items[0], delimiter);
    } else if |items| > 1 {
      SplitOfJoin(items[1..], delimiter);
      SplitFirst(items[0], Join(items[1..], delimiter), delimiter);
    }
  }

  /** Splitting inverts joining exactly for items that contain no delimiter, the last of which is not empty. */
  lemma SplitInvertsJoin(items: seq<bytes>, delimiter: byte)
    ensures Split(Join(items, delimiter), delimiter) == items
       <==> (forall i :: 0 <= i < |items| ==> delimiter !in items[i]) && (items == [] || items[|items| - 1] != [])
  {
    SplitItemsHaveNoDelimiter(Join(items, delimiter), delimiter);
    WithoutTrailingEmptyIsAll(items);
    if forall i :: 0 <= i < |items| ==> delimiter !in items[i] {
      SplitOfJoin(items, delimiter);
    }
  }

  predicate Terminated(text: bytes, delimiter: byte) {
    text == [] || text[|text| - 1] == delimiter
  }

  /** A text with a delimiter: its first item, and how splitting it goes on, also with more text behind. */
  lemma FirstItem(text: bytes, tail: bytes, delimiter: byte) returns (item: bytes, rest: bytes)
    requires delimiter in text
    ensures |rest| < |text| && Terminated(text, delimiter) == Terminated(rest, delimiter)
    ensures Split(text, delimiter) == [item] + Split(rest, delimiter)
    ensures Split(text + tail, delimiter) == [item] + Split(rest + tail, delimiter)
  {
    var n := Before(text, delimiter);
    BeforeSpec(text, delimiter);
    item, rest := text[..n], text[n + 1..];
    assert text == item + [delimiter] + rest;
    assert text + tail == item + [delimiter] + (rest + tail);
    SplitFirst(item, rest, delimiter);
    SplitFirst(item, rest + tail, delimiter);
  }

  lemma SplitLine(line: bytes, delimiter: byte)
    requires delimiter !in line
    ensures Split(line + [delimiter], delimiter) == [line]
  {
    SplitFirst(line, [], delimiter);
    assert line + [delimiter] == line + [delimiter] + [];
  }

  lemma ConsConcat(first: bytes, items: seq<bytes>, more: seq<bytes>)
    ensures [first] + (items + more) == ([first] + items) + more
  {
  }

  /** Text behind a text whose last item is terminated is split on its own. */
  lemma {:induction false} SplitAppend(text: bytes, tail: bytes, delimiter: byte)
    requires Terminated(text, delimiter)
    ensures Split(text + tail, delimiter) == Split(text, delimiter) + Split(tail, delimiter)
    decreases |text|
  {
    if text == [] {
      assert text + tail == tail;
    } else {
      var item, rest := FirstItem(text, tail, delimiter);
      SplitAppend(rest, tail, delimiter);
      ConsConcat(item, Split(rest, delimiter), Split(tail, delimiter));
    }
  }

  /** The last of some items and the first of others as one item. */
  function Glued(items: seq<bytes>, more: seq<bytes>): seq<bytes>
    requires items != [] && more != []
  {
    items[..|items| - 1] + [items[|items| - 1] + more[0]] + more[1..]
  }

  lemma GluedBehind(item: bytes, items: seq<bytes>, more: seq<bytes>)
    requires items != [] && more != []
    ensures Glued([item] + items, more) == [item] + Glued(items, more)
  {
    assert ([item] + items)[..|items|] == [item] + items[..|items| - 1];
  }

  lemma GluedOne(text: bytes, item: bytes, items: seq<bytes>)
    ensures Glued([text], [item] + items) == [text + item] + items
  {
    assert [text][..0] == [];
    assert ([item] + items)[1..] == items;
  }

  lemma SplitUnterminatedOnly(text: bytes, tail: bytes, delimiter: byte)
    requires text != [] && delimiter !in text && tail != []
    ensures Split(text, delimiter) == [text] && Split(tail, delimiter) != []
    ensures Split(text + tail, delimiter) == Glued([text], Split(tail, delimiter))
  {
    SplitOne(text, delimiter);
    var item, items := FirstGlued(text, tail, delimiter);
    GluedOne(text, item, items);
  }

  /** Text in front of others is part of their first item. */
  lemma FirstGlued(text: bytes, tail: bytes, delimiter: byte) returns (item: bytes, items: seq<bytes>)
    requires delimiter !in text && tail != []
    ensures Split(tail, delimiter) == [item] + items && Split(text + tail, delimiter) == [text + item] + items
  {
    BeforeSpec(tail, delimiter);
    var n := Before(tail, delimiter);
    item := tail[..n];
    if n < |tail| {
      var rest := tail[n + 1..];
      items := Split(rest, delimiter);
      CutAtDelimiter(tail, n);
      SplitFirst(item, rest, delimiter);
      InFront(text, item, [delimiter], rest);
      SplitFirst(text + item, rest, delimiter);
    } else {
      items := [];
      SplitOne(tail, delimiter);
      SplitOne(text + tail, delimiter);
    }
  }

  lemma CutAtDelimiter(text: bytes, n: nat)
    requires n < |text|
    ensures text == text[..n] + [text[n]] + text[n + 1..]
  {
  }

  lemma InFront(text: bytes, item: bytes, parting: bytes, rest: bytes)
    ensures text + (item + parting + rest) == (text + item) + parting + rest
  {
  }

  /** Text behind any other text extends its last item. */
  lemma {:induction false} SplitExtend(text: bytes, tail: bytes, delimiter: byte)
    requires !Terminated(text, delimiter) && tail != []
    ensures var items, more := Split(text, delimiter), Split(tail, delimiter);
            && items != [] && items[|items| - 1] != [] && more != []
            && Split(text + tail, delimiter) == Glued(items, more)
    decreases |text|
  {
    if delimiter !in text {
      SplitUnterminatedOnly(text, tail, delimiter);
    } else {
      var item, rest := FirstItem(text, tail, delimiter);
      SplitExtend(rest, tail, delimiter);
      GluedBehind(item, Split(rest, delimiter), Split(tail, delimiter));
    }
  }
}
