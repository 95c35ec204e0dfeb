/**
 * demo_scripts/plotting/config.py: the inline HTML styling wrapped around chart titles and
 * axis labels.
 */
module Style {
  import opened Wrappers

  /** The opening of every styled text, up to the colour. */
  const STYLING := "<span style=\"font-family: 'DejaVu Sans', Arial, Helvetica, sans-serif; color: "

  /** The closing tag every styled text ends with. */
  const CLOSE := "</span>"

  const TITLE_STYLE := "#00AEEF; font-size: 20px; line-height: 1.2640625; \">"
  const X_AXIS_STYLE := "#F7941C; font-size: 12px; line-height: 1.4640625; font-weight: bold;\">"
  const Y_AXIS_STYLE := "line-height: 1.4640625; font-weight: bold;\">"

  /** The colour `y_axis` uses when none is given. */
  const DEFAULT_Y_COLOR := "#00AEEF"

  /** A text between an opening and the closing tag. */
  function Wrap(opening: string, text: string): (r: string)
    ensures |r| == |opening| + |text| + |CLOSE|
    ensures r[..|opening|] == opening
    ensures r[|opening|..|opening| + |text|] == text
    ensures r[|opening| + |text|..] == CLOSE
  {
    opening + text + CLOSE
  }

  /** The text inside a styled text, given the opening it was wrapped with. */
  function Unwrap(styled: string, opening: string): string
    requires |opening| + |CLOSE| <= |styled|
  {
    styled[|opening|..|styled| - |CLOSE|]
  }

  /** `Style.title`: the styling, the blue 20px title style, the title, the closing tag. */
  function Title(title: string): (r: string)
    ensures r == Wrap(STYLING + TITLE_STYLE, title)
  {
    STYLING + TITLE_STYLE + title + CLOSE
  }

  /** `Style.x_axis`: the styling, the orange bold axis style, the text, the closing tag. */
  function XAxis(text: string): (r: string)
    ensures r == Wrap(STYLING + X_AXIS_STYLE, text)
  {
    STYLING + X_AXIS_STYLE + text + CLOSE
  }

  /** `Style.y_axis`: the styling, the colour (blue by default) and "; ", the bold axis style, the text. */
  function YAxis(text: string, color: Option<string>): (r: string)
    ensures r == Wrap(STYLING + color.GetOr(DEFAULT_Y_COLOR) + "; " + Y_AXIS_STYLE, text)
  {
    STYLING + color.GetOr(DEFAULT_Y_COLOR) + "; " + Y_AXIS_STYLE + text + CLOSE
  }

  /** A title starts with the common styling, ends with the closing tag, and gives back its text. */
  lemma TitleRoundTrip(text: string)
    ensures var t := Title(text);
      t[..|STYLING|] == STYLING && t[|t| - |CLOSE|..] == CLOSE && Unwrap(t, STYLING + TITLE_STYLE) == text
  {
    WrapPrefix(STYLING, TITLE_STYLE, text);
  }

  /** An x-axis label starts with the common styling, ends with the closing tag, and gives back its text. */
  lemma XAxisRoundTrip(text: string)
    ensures var x := XAxis(text);
      x[..|STYLING|] == STYLING && x[|x| - |CLOSE|..] == CLOSE && Unwrap(x, STYLING + X_AXIS_STYLE) == text
  {
    WrapPrefix(STYLING, X_AXIS_STYLE, text);
  }

  /**
   * A y-axis label starts with the common styling, then its colour (blue unless given), ends
   * with the closing tag, and gives back its text.
   */
  lemma YAxisRoundTrip(text: string, color: Option<string>)
    ensures var c := color.GetOr(DEFAULT_Y_COLOR); var y := YAxis(text, color);
      y[..|STYLING|] == STYLING && y[|y| - |CLOSE|..] == CLOSE &&
      Unwrap(y, STYLING + c + "; " + Y_AXIS_STYLE) == text &&
      y[|STYLING|..|STYLING| + |c|] == c
  {
    ColouredShape(STYLING, color.GetOr(DEFAULT_Y_COLOR), "; ", Y_AXIS_STYLE, text);
  }

  /** The pieces of `styling + colour + separator + style + text + CLOSE`, one by one. */
  lemma ColouredShape(styling: string, colour: string, separator: string, style: string, text: string)
    ensures var y := styling + colour + separator + style + text + CLOSE;
      y[..|styling|] == styling && y[|y| - |CLOSE|..] == CLOSE &&
      Unwrap(y, styling + colour + separator + style) == text &&
      y[|styling|..|styling| + |colour|] == colour
  {
    var opening := styling + colour + separator + style;
    var y := opening + text + CLOSE;
    assert y[..|styling|] == opening[..|styling|];
    assert y[|styling|..|styling| + |colour|] == opening[|styling|..|styling| + |colour|];
    assert opening[|styling|..|styling| + |colour|] == (styling + colour)[|styling|..];
  }

  /** A text wrapped with `styling + style` starts with `styling`, ends with the closing tag and unwraps. */
  lemma WrapPrefix(styling: string, style: string, text: string)
    ensures var w := Wrap(styling + style, text);
      w[..|styling|] == styling && w[|w| - |CLOSE|..] == CLOSE && Unwrap(w, styling + style) == text
  {
    var w := Wrap(styling + style, text);
    assert w[..|styling|] == (styling + style)[..|styling|];
  }
}
