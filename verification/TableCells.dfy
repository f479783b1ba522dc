/** What is shown of the cells of a table. */
module TableCells {
  import opened WikiTables

  lemma {:induction false} FirstBarIs(a: string, b: string)
    requires '|' !in a && (b == "" || b[0] == '|')
    ensures FirstBar(a + b) == |a|
  {
    if a == "" {
      assert a + b == b;
    } else {
      assert (a + b)[0] == a[0] && (a + b)[1..] == a[1..] + b;
      FirstBarIs(a[1..], b);
    }
  }

  /** What is shown of a cell stands behind its first bar; all of it, if there is none or a link begins before. */
  lemma TextBehindBar(attributes: string, text: string)
    requires '|' !in attributes
    ensures CellText(attributes) == attributes
    ensures CellText(attributes + "|" + text) == if HasLink(attributes) then attributes + "|" + text else text
  {
    var cell := attributes + "|" + text;
    assert cell == attributes + ("|" + text) && attributes + "" == attributes;
    FirstBarIs(attributes, "|" + text);
    FirstBarIs(attributes, "");
    assert cell[..|attributes|] == attributes && cell[|attributes| + 1..] == text;
  }

  /** Each pair of exclamation marks between headers becomes two bars. */
  lemma {:induction false} BarsForHeaders(header: string, rest: string)
    requires '!' !in header
    ensures BarsFor(header + "!!" + rest) == header + "||" + BarsFor(rest) && BarsFor(header) == header
  {
    var all := header + "!!" + rest;
    if header == "" {
      assert all == "!!" + rest && all[2..] == rest;
      assert header + "||" == "||";
    } else {
      var less := header[1..];
      assert all[0] == header[0] && all[1..] == less + "!!" + rest && header == [header[0]] + less;
      BarsForHeaders(less, rest);
      assert [header[0]] + (less + "||" + BarsFor(rest)) == header + "||" + BarsFor(rest);
    }
  }
}
