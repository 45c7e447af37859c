/** The water-meter details dialog: free text is split into lines, blank lines
    are dropped, and each line is shown either as one cell or, when it holds a
    colon, as a label (before the first colon) and a value (after it). */
module WaterMeterDetails {
  import opened Seqs
  import opened Text

  /** How one detail line is displayed. */
  datatype DetailRow = Plain(text: string) | LabelValue(caption: string, value: string)

  predicate NonBlank(line: string) { Trim(line) != "" }

  /** `details.split('\n').filter(line => line.trim() !== '')`: the pieces
      between newlines that are not blank, in their original order. */
  function DetailLines(details: string): (lines: seq<string>)
    ensures Subseq(lines, Split(details, '\n'))
    ensures forall l :: l in lines ==> l in Split(details, '\n') && !AllWhitespace(l) && '\n' !in l
    ensures forall l :: l in Split(details, '\n') && !AllWhitespace(l) ==> l in lines
    ensures |lines| == Count(Split(details, '\n'), NonBlank)
  {
    var parts := Split(details, '\n');
    FilterIsSubseq(parts, NonBlank);
    forall l | l in parts ensures NonBlank(l) <==> !AllWhitespace(l) {
      TrimEmptyIff(l);
    }
    Filter(parts, NonBlank)
  }

  /** One line: `line.split(':')`; fewer than two parts shows the line as it
      is; otherwise the trimmed first part is the label and the remaining
      parts, rejoined with ':' and trimmed, are the value. */
  function ParseLine(line: string): (row: DetailRow)
    ensures row.Plain? <==> ':' !in line
    ensures row.Plain? ==> row.text == line
    ensures row.LabelValue? ==> ':' !in row.caption
  {
    var parts := Split(line, ':');
    if |parts| < 2 then Plain(line)
    else LabelValue(Trim(parts[0]), Trim(Join(parts[1..], ':')))
  }

  /** What the dialog lists, one row per detail line. */
  function DetailRows(details: string): (rows: seq<DetailRow>)
    ensures |rows| == |DetailLines(details)|
    ensures forall i :: 0 <= i < |rows| ==> rows[i] == ParseLine(DetailLines(details)[i])
  {
    Map(DetailLines(details), ParseLine)
  }

  /** A line without a colon is shown unchanged, as a single cell. */
  lemma ParseLineNoColon(line: string)
    requires ':' !in line
    ensures ParseLine(line) == Plain(line)
  {
  }

  /** A line with a colon splits at the FIRST colon: the label is the trimmed
      text before it and the value the trimmed text after it, later colons
      included. */
  lemma ParseLineFirstColon(line: string)
    requires ':' in line
    ensures var k := FirstIndex(line, ':');
      ParseLine(line) == LabelValue(Trim(line[..k]), Trim(line[k + 1..]))
  {
    SplitAtFirst(line, ':');
  }

  /** The empty-state message is shown exactly when the details are all
      whitespace (the empty string included). */
  lemma EmptyStateIff(details: string)
    ensures |DetailLines(details)| == 0 <==> AllWhitespace(details)
  {
    var parts := Split(details, '\n');
    if AllWhitespace(details) {
      forall i | 0 <= i < |parts| ensures !NonBlank(parts[i]) {
        forall x | x in parts[i] ensures IsWhitespace(x) {
          SplitChars(details, '\n', i, x);
        }
        TrimEmptyIff(parts[i]);
      }
    } else if |DetailLines(details)| == 0 {
      var k :| 0 <= k < |details| && !IsWhitespace(details[k]);
      var x := details[k];
      JoinSplit(details, '\n');
      JoinChars(parts, '\n', x);
      assert false;
    }
  }

  /** Whatever follows the first colon, further colons included, is the
      value: a line `before:after` with no colon in `before` is shown as the
      label `before` and the value `after`, both trimmed. */
  lemma LaterColonsKept(before: string, after: string)
    requires ':' !in before
    ensures ParseLine(before + ":" + after) == LabelValue(Trim(before), Trim(after))
  {
    var line := before + ":" + after;
    assert line[..|before|] == before;
    assert line[|before| + 1..] == after;
    FirstIndexAt(line, ':', |before|);
    ParseLineFirstColon(line);
  }
}
