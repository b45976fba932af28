/**
  The result formatter of the chat handler (app.py lines 141-151): the value the
  evaluator returned is shown as a fixed message, an HTML table, or text.
 */
module Formatter {
  import opened Text

  /**
    What `eval` can return, as far as the formatter tells values apart. The HTML a
    table renders to (`to_html`, after `pd.DataFrame(...)` for a Series or a list)
    and the text `str(...)` gives for any other value are pandas' and Python's own,
    so they are carried as given.
   */
  datatype Value =
    | DataFrame(rows: nat, columns: nat, html: string)
    | Series(html: string)
    | List(html: string)
    | Scalar(text: string)

  const NoRecords: string := "I couldn't find any records that match your query."
  const GridOpen: string := "<div class='table-responsive'>"
  const GridClose: string := "</div>"
  const LineBreak: string := "<br>"

  /** pandas' `DataFrame.empty`: no rows or no columns. */
  predicate IsEmptyFrame(v: Value) {
    v.DataFrame? && (v.rows == 0 || v.columns == 0)
  }

  /**
    The answer shown for a value: the fixed message for an empty data frame, the
    wrapped table for any other data frame, Series or list (even an empty one), and
    otherwise the value's text with every newline turned into `<br>`.
   */
  function Format(v: Value): (r: string)
    ensures IsEmptyFrame(v) ==> r == NoRecords
    ensures !IsEmptyFrame(v) && !v.Scalar? ==> r == GridOpen + v.html + GridClose
    ensures v.Scalar? ==> '\n' !in r && (('\n' !in v.text) ==> r == v.text)
  {
    match v
    case DataFrame(rows, columns, html) =>
      if rows == 0 || columns == 0 then NoRecords else GridOpen + html + GridClose
    case Series(html) => GridOpen + html + GridClose
    case List(html) => GridOpen + html + GridClose
    case Scalar(text) =>
      ReplaceAllRemovesChar(text, '\n', LineBreak);
      ContainsChar(text, '\n');
      if '\n' !in text then ReplaceAllAbsent(text, "\n", LineBreak); ReplaceAll(text, "\n", LineBreak)
      else ReplaceAll(text, "\n", LineBreak)
  }

  /** Where the rendering of `t` starts with a character other than `<`, so does `t`. */
  lemma BreakHead(t: string, x: char)
    requires x != '<'
    requires ReplaceAll(t, "\n", LineBreak) != [] && ReplaceAll(t, "\n", LineBreak)[0] == x
    ensures t != [] && t[0] == x
    ensures ReplaceAll(t, "\n", LineBreak) == [x] + ReplaceAll(t[1..], "\n", LineBreak)
  {
  }

  /** A rendering can only start with `<br>` where the text starts with a newline or with `<br>` itself. */
  lemma NoBreakAtFront(text: string)
    requires text != [] && text[0] != '\n' && !StartsWith(text, LineBreak)
    ensures !StartsWith(ReplaceAll(text, "\n", LineBreak), LineBreak)
  {
    var r := ReplaceAll(text, "\n", LineBreak);
    assert r == [text[0]] + ReplaceAll(text[1..], "\n", LineBreak);
    if StartsWith(r, LineBreak) {
      assert r[1] == 'b' && r[2] == 'r' && r[3] == '>';
      BreakHead(text[1..], 'b');
      assert text[1..][1..] == text[2..];
      BreakHead(text[2..], 'r');
      assert text[2..][1..] == text[3..];
      BreakHead(text[3..], '>');
      assert false;
    }
  }

  /**
    Turning `<br>` back into newlines recovers the value's text whenever that text
    had no `<br>` of its own: the rendering loses nothing else.
   */
  lemma {:induction false} ScalarRoundTrip(text: string)
    requires !Contains(text, LineBreak)
    ensures ReplaceAll(Format(Scalar(text)), LineBreak, "\n") == text
    decreases |text|
  {
    if text != [] {
      var rest := ReplaceAll(text[1..], "\n", LineBreak);
      ScalarRoundTrip(text[1..]);
      if text[0] == '\n' {
        assert ReplaceAll(text, "\n", LineBreak) == LineBreak + rest;
        ReplaceAtFront(rest, LineBreak, "\n");
      } else {
        assert ReplaceAll(text, "\n", LineBreak) == [text[0]] + rest;
        NoBreakAtFront(text);
        ReplaceSkipsChar(text[0], rest, LineBreak, "\n");
      }
    }
  }
}
