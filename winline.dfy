/** A paying line of a spin result (src/model/WinLine.js) and its wire form
    `"num~win~i1,i2,...,in"`. */
module WinLine {
  import opened JsValue

  /** `new WinLine(num, win, board)` stores its three arguments as given. */
  datatype WinLine = WinLine(num: JsNumber, win: JsNumber, boardSymbolIndexes: seq<JsNumber>)

  /** `fields.map(v => +v)`. */
  function ToNumbers(fields: seq<string>): (ns: seq<JsNumber>)
    ensures |ns| == |fields|
    ensures forall i :: 0 <= i < |fields| ==> ns[i] == ToNumber(fields[i])
  {
    if fields == [] then [] else [ToNumber(fields[0])] + ToNumbers(fields[1..])
  }

  /** `WinLine.deserialize(s)`: the first three `~`-separated fields become
      the number, the win and the comma-separated indexes; anything after a
      third `~` is ignored. With fewer than two `~` the third field is
      `undefined`, and calling `split` on it throws a TypeError. */
  function Deserialize(s: string): (r: Result<WinLine>)
    ensures r.Ok? <==> Count(s, '~') >= 2
    ensures r.Ok? ==> |r.value.boardSymbolIndexes| == Count(Split(s, '~')[2], ',') + 1
  {
    var parts := Split(s, '~');
    if |parts| < 3 then TypeError
    else Ok(WinLine(ToNumber(parts[0]), ToNumber(parts[1]), ToNumbers(Split(parts[2], ','))))
  }

  /** Three `~`-free fields joined by `~` deserialize field by field. */
  lemma DeserializeFields(num: string, win: string, board: string)
    requires '~' !in num && '~' !in win && '~' !in board
    ensures Deserialize(num + "~" + win + "~" + board)
         == Ok(WinLine(ToNumber(num), ToNumber(win), ToNumbers(Split(board, ','))))
  {
    var tail := win + ['~'] + board;
    WireForm(num, win, board);
    SplitFree(board, '~');
    SplitPrefix(win, board, '~');
    SplitPrefix(num, tail, '~');
    assert [num] + ([win] + [board]) == [num, win, board];
  }

  /** The wire form regrouped around its first separator. */
  lemma WireForm(num: string, win: string, board: string)
    ensures num + "~" + win + "~" + board == num + ['~'] + (win + ['~'] + board)
  {
  }

  /** An empty index field yields the single index 0, since `+""` is 0. */
  lemma EmptyBoardFieldIsZero(num: string, win: string)
    requires '~' !in num && '~' !in win
    ensures Deserialize(num + "~" + win + "~")
         == Ok(WinLine(ToNumber(num), ToNumber(win), [Num(0)]))
  {
    DeserializeFields(num, win, "");
    assert num + "~" + win + "~" + "" == num + "~" + win + "~";
    assert Split("", ',') == [""];
    assert ToNumbers([""]) == [Num(0)];
  }

  /** Whatever follows a further `~` does not change the result. */
  lemma TrailingFieldsIgnored(s: string, rest: string)
    requires Count(s, '~') >= 2
    ensures Deserialize(s + "~" + rest) == Deserialize(s)
  {
    SplitConcat(s, rest, '~');
    assert s + "~" + rest == s + ['~'] + rest;
    var whole := Split(s + "~" + rest, '~');
    assert whole[..3] == Split(s, '~')[..3];
  }

  /** The wire form of a line whose fields are natural numbers. */
  function Serialize(num: nat, win: nat, indexes: seq<nat>): string
    requires |indexes| >= 1
  {
    DecimalString(num) + "~" + DecimalString(win) + "~" + Join(DecimalStrings(indexes), ',')
  }

  function DecimalStrings(ns: seq<nat>): (ss: seq<string>)
    ensures |ss| == |ns|
    ensures forall i :: 0 <= i < |ns| ==> ss[i] == DecimalString(ns[i])
  {
    if ns == [] then [] else [DecimalString(ns[0])] + DecimalStrings(ns[1..])
  }

  function Nums(ns: seq<nat>): (r: seq<JsNumber>)
    ensures |r| == |ns|
    ensures forall i :: 0 <= i < |ns| ==> r[i] == Num(ns[i])
  {
    if ns == [] then [] else [Num(ns[0])] + Nums(ns[1..])
  }

  lemma DigitsFree(s: string, c: char)
    requires IsDigits(s) && !IsDigit(c)
    ensures c !in s
  {
    forall i | 0 <= i < |s|
      ensures s[i] != c
    {
      assert IsDigit(s[i]);
    }
  }

  lemma {:induction false} JoinDigitsFree(parts: seq<string>)
    requires |parts| >= 1
    requires forall i :: 0 <= i < |parts| ==> IsDigits(parts[i])
    ensures '~' !in Join(parts, ',')
  {
    DigitsFree(parts[0], '~');
    if |parts| > 1 {
      JoinDigitsFree(parts[1..]);
    }
  }

  /** Serializing and deserializing a line of natural numbers gives it back. */
  lemma DeserializeSerialize(num: nat, win: nat, indexes: seq<nat>)
    requires |indexes| >= 1
    ensures Deserialize(Serialize(num, win, indexes)) == Ok(WinLine(Num(num), Num(win), Nums(indexes)))
  {
    var n, w := DecimalString(num), DecimalString(win);
    var parts := DecimalStrings(indexes);
    var board := Join(parts, ',');
    DigitsFree(n, '~');
    DigitsFree(w, '~');
    JoinDigitsFree(parts);
    DeserializeFields(n, w, board);
    assert Serialize(num, win, indexes) == n + "~" + w + "~" + board;
    forall i | 0 <= i < |parts|
      ensures ',' !in parts[i]
    {
      DigitsFree(parts[i], ',');
    }
    SplitJoin(parts, ',');
    DecimalRoundTrip(num);
    DecimalRoundTrip(win);
    forall i | 0 <= i < |indexes|
      ensures ToNumbers(parts)[i] == Nums(indexes)[i]
    {
      DecimalRoundTrip(indexes[i]);
    }
    assert ToNumbers(Split(board, ',')) == Nums(indexes);
  }
}
