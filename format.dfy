/**
 * `fmt`: the dashboard's display form of a number. Negative values are
 * wrapped in Streamlit's red markup, every other value (zero included) in
 * plain bold; money gets the "R " currency prefix.
 */
module Format {
  import opened Wrappers
  import opened Text

  /**
   * The text inside the markup. `digits` stands for Python's
   * `format(x, ",.2f")` applied to a non-negative x (thousands-grouped, two
   * decimals), which the model leaves uninterpreted; the sign is written
   * out, after the currency prefix, as that format does ("R -42.50").
   */
  function NumberText(val: real, money: bool, digits: real -> string): string {
    (if money then "R " else "") + (if val < 0.0 then "-" else "") + digits(if val < 0.0 then -val else val)
  }

  /** `fmt(val, money)`. */
  function Fmt(val: real, money: bool, digits: real -> string): (s: string)
    ensures StartsWith(s, ":red[") <==> val < 0.0
    ensures money ==> StartsWith(s, if val < 0.0 then ":red[**R -" else "**R ")
    ensures !money ==> StartsWith(s, if val < 0.0 then ":red[**-" else "**")
  {
    var text := NumberText(val, money, digits);
    if val < 0.0 then ":red[**" + text + "**]"
    else
      var plain := "**" + text + "**";
      assert plain[0] == '*';
      plain
  }

  /** Reads the markup back: whether it is the red alert form, and the text it wraps. */
  function Unwrap(s: string): Option<(bool, string)> {
    if |s| >= 10 && StartsWith(s, ":red[**") && s[|s| - 3..] == "**]" then Some((true, s[7..|s| - 3]))
    else if |s| >= 4 && StartsWith(s, "**") && s[|s| - 2..] == "**" then Some((false, s[2..|s| - 2]))
    else None
  }

  /** The markup of `Fmt` is recoverable: red exactly for negatives, around exactly the number text. */
  lemma FmtUnwrap(val: real, money: bool, digits: real -> string)
    ensures Unwrap(Fmt(val, money, digits)) == Some((val < 0.0, NumberText(val, money, digits)))
  {
    var text := NumberText(val, money, digits);
    var s := Fmt(val, money, digits);
    if val < 0.0 {
      assert s == ":red[**" + text + "**]";
      assert |s| >= 10 && StartsWith(s, ":red[**");
      assert s[7..|s| - 3] == text && s[|s| - 3..] == "**]";
    } else {
      assert s == "**" + text + "**";
      assert s[0] == '*';
      assert !StartsWith(s, ":red[**");
      assert |s| >= 4 && StartsWith(s, "**");
      assert s[2..|s| - 2] == text && s[|s| - 2..] == "**";
    }
  }

  /** A value and its negation are shown with the same digits, the negative one after a '-'. */
  lemma FmtNegation(val: real, money: bool, digits: real -> string)
    requires val > 0.0
    ensures var prefix := if money then "R " else "";
      && Unwrap(Fmt(val, money, digits)) == Some((false, prefix + digits(val)))
      && Unwrap(Fmt(-val, money, digits)) == Some((true, prefix + "-" + digits(val)))
  {
    FmtUnwrap(val, money, digits);
    FmtUnwrap(-val, money, digits);
    assert NumberText(val, money, digits) == (if money then "R " else "") + digits(val);
  }
}
