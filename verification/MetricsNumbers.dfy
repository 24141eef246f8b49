/** Metric values, and the text of numbers in table cells. */
module MetricsNumbers {
  import opened Common
  import opened MetricsFields

  datatype Value = Text(text: string) | Whole(n: int) | Decimal(d: real)

  function Num(value: Value): real
  {
    match value
    case Text(_) => 0.0
    case Whole(n) => n as real
    case Decimal(d) => d
  }

  /** Equal as texts, or equal as numbers. */
  predicate Same(a: Value, b: Value)
  {
    if a.Text? || b.Text? then a == b else Num(a) == Num(b)
  }

  // ---------------------------------------------------------------------------------------------
  // Whole numbers
  // ---------------------------------------------------------------------------------------------

  function Digit(n: nat): char
    requires n < 10
  {
    ('0' as int + n) as char
  }

  function Digits(n: nat): (s: string)
    ensures s != "" && forall i :: 0 <= i < |s| ==> IsDigit(s[i])
    ensures n > 0 ==> s[0] != '0'
    ensures n < 10 <==> |s| == 1
  {
    if n < 10 then [Digit(n)] else Digits(n / 10) + [Digit(n % 10)]
  }

  function ShowWhole(n: int): string
  {
    if n < 0 then "-" + Digits(-n) else Digits(n)
  }

  function Value10(s: string): int
    requires forall i :: 0 <= i < |s| ==> IsDigit(s[i])
  {
    if s == "" then 0 else Value10(s[..|s| - 1]) * 10 + (s[|s| - 1] as int - '0' as int)
  }

  /** Zero, or digits that do not start with zero. */
  function ReadWhole(s: string): Option<int>
  {
    if s == "" || (s[0] == '0' && |s| > 1) || exists i :: 0 <= i < |s| && !IsDigit(s[i]) then None
    else Some(Value10(s))
  }

  lemma {:induction false} DigitsRead(n: nat)
    ensures Value10(Digits(n)) == n
  {
    if n >= 10 {
      DigitsRead(n / 10);
      var s := Digits(n);
      assert s[..|s| - 1] == Digits(n / 10);
    }
  }

  /** A count is read back from its decimal digits. */
  lemma WholeReads(n: nat)
    ensures ReadWhole(ShowWhole(n)) == Some(n)
  {
    DigitsRead(n);
  }

  // ---------------------------------------------------------------------------------------------
  // Cells
  // ---------------------------------------------------------------------------------------------

  /** How numbers that are not counts are printed and read. */
  datatype Printer = Printer(show: real -> string, read: string -> Option<real>)

  function Format(value: Value, printer: Printer): string
  {
    match value
    case Text(text) => text
    case Whole(n) => ShowWhole(n)
    case Decimal(d) => printer.show(d)
  }

  predicate Trimmed(s: string)
  {
    s != "" && !IsSpace(s[0]) && !IsSpace(s[|s| - 1])
  }

  predicate IsSha(s: string)
  {
    |s| == 64 && forall i :: 0 <= i < |s| ==> IsDigit(s[i]) || 'a' <= s[i] <= 'f'
  }

  function DoneText(): string { "succeeded" }

  function ReadNumber(field: Field, cell: string, printer: Printer): Option<Value>
  {
    if !Trimmed(cell) then None
    else if IsWhole(field) then
      var n := ReadWhole(cell);
      if n.None? then None else Some(Whole(n.value))
    else
      var d := printer.read(cell);
      if d.None? || (!MayBeNegative(field) && d.value < 0.0) || (IsPercent(field) && d.value > 100.0) then None
      else Some(Decimal(d.value))
  }

  /** A cell of a column as the reader takes it. */
  function ReadCell(field: Field, cell: string, printer: Printer): Option<Value>
  {
    if field.Status? then if cell == DoneText() then Some(Text(cell)) else None
    else if field.CheckpointSha256? then if IsSha(cell) then Some(Text(cell)) else None
    else ReadNumber(field, cell, printer)
  }

  /** The value fits the metric: its type and its range. */
  predicate Fits(field: Field, value: Value)
  {
    if field.Status? then value == Text(DoneText())
    else if field.CheckpointSha256? then value.Text? && IsSha(value.text)
    else if IsText(field) then value.Text? && value.text != ""
    else if IsWhole(Column(field)) then value.Whole? && value.n >= 0
    else
      && !value.Text?
      && (MayBeNegative(field) || Num(value) >= 0.0) && (IsPercent(field) ==> Num(value) <= 100.0)
  }

  /** A number that is not a count is printed so that it is read back exactly. */
  predicate Exact(field: Field, value: Value, printer: Printer)
  {
    !value.Text? && !IsWhole(Column(field)) ==>
      Trimmed(Format(value, printer)) && printer.read(Format(value, printer)) == Some(Num(value))
  }

  /** A value that fits its metric is read back from the cell of the metric's column. */
  lemma CellReads(field: Field, value: Value, printer: Printer)
    requires Fits(field, value) && Exact(field, value, printer)
    requires Owner(field).Some? && Owner(field) != Some(Profile)
    ensures var cell := Format(value, printer);
            var read := ReadCell(Column(field), cell, printer);
            cell != "" && read.Some? && Same(read.value, value)
  {
    var column := Column(field);
    NotText(field);
    hide Owner, IsWhole;
    if value.Whole? && value.n >= 0 {
      WholeReads(value.n);
    }
  }

  lemma NotText(field: Field)
    requires Owner(field).Some? && Owner(field) != Some(Profile)
    ensures IsText(field) ==> field.Status? || field.CheckpointSha256?
    ensures MayBeNegative(Column(field)) == MayBeNegative(field) && IsPercent(Column(field)) == IsPercent(field)
    ensures Column(field).Status? <==> field.Status?
    ensures Column(field).CheckpointSha256? <==> field.CheckpointSha256?
  {
  }
}
