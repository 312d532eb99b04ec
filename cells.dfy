/**
 * Sheet cells as the dashboard's data frame holds them, and the cell-level
 * operations the preprocessing applies to them: the missing-value test, the
 * coercion `fillna(False).astype(bool)`, and `+` on text columns.
 */
module Cells {
  import opened Wrappers

  /** A cell of the loaded sheet: missing (None or NaN), a string, or another
      scalar (a number or a boolean) whose Python truth value is `truthy`. */
  datatype Cell = Absent | Text(text: string) | Scalar(truthy: bool)

  /** pandas `isna`: only a missing cell is missing; an empty string is not. */
  predicate IsNa(c: Cell) {
    c.Absent?
  }

  /** `fillna(False).astype(bool)`: a missing cell becomes false, any other
      cell its Python truth value (a string is true exactly when non-empty). */
  predicate AsBool(c: Cell) {
    match c
    case Absent => false
    case Text(t) => t != ""
    case Scalar(truthy) => truthy
  }

  /** The coercion does not read the text: the words "FALSE" and "false"
      become true like any other non-empty string, the empty string false. */
  lemma AsBoolIgnoresWording(t: string)
    ensures AsBool(Text(t)) <==> |t| > 0
    ensures AsBool(Text("FALSE")) && AsBool(Text("false")) && AsBool(Text("TRUE"))
    ensures !AsBool(Text("")) && !AsBool(Absent)
  {
  }

  /** `acc + piece` on two object columns, for one row: a missing operand
      gives a missing result (pandas masks it), two strings concatenate, and
      a string next to a non-string scalar raises TypeError (None). */
  function Append(acc: Cell, piece: Cell): (r: Option<Cell>)
    requires !(acc.Scalar? && piece.Scalar?)
    ensures r.Some? ==> !r.value.Scalar?
  {
    if acc.Absent? || piece.Absent? then Some(Absent)
    else if acc.Text? && piece.Text? then Some(Text(acc.text + piece.text))
    else None
  }

  /** `name + " - " + street + ", " + city`, evaluated left to right; None
      when one of the additions raises TypeError. */
  function JoinLabel(name: Cell, street: Cell, city: Cell): (r: Option<Cell>)
    ensures r.None? <==>
      || name.Scalar?
      || (name.Text? && street.Scalar?)
      || (name.Text? && street.Text? && city.Scalar?)
    ensures r.Some? && (name.Absent? || street.Absent? || city.Absent?) ==> r.value == Absent
    ensures name.Text? && street.Text? && city.Text? ==>
      r == Some(Text(name.text + " - " + street.text + ", " + city.text))
  {
    match Append(name, Text(" - "))
    case None => None
    case Some(a) =>
      match Append(a, street)
      case None => None
      case Some(b) =>
        match Append(b, Text(", "))
        case None => None
        case Some(c) => Append(c, city)
  }
}
