/**
 * The copy-button widget of the older editor plugin: it copies the text it was built with.
 */
module LegacyCopyButtonWidget {
  import opened CopyButton

  class CopyButtonWidget {
    /** The text every click copies, fixed for the widget's lifetime. */
    const text: string

    constructor(text: string)
      ensures this.text == text
    {
      this.text := text;
    }

    /**
     * `toDOM`: a button with the three widget classes, labelled "Copy (Markdown)", showing the
     * copy icon, that copies this widget's text.
     */
    method ToDOM() returns (copyButton: CopyButtonElement)
      ensures fresh(copyButton)
      ensures copyButton.source == Fixed(text)
      ensures copyButton.State() == ButtonState(CopyIcon, WidgetClasses, MarkdownLabel, false, 0, 0, [])
      ensures Idle(copyButton.State()) && Consistent(copyButton.State())
    {
      var classes := AddClasses([], WidgetClasses);
      WidgetClassesDistinct();
      AddDistinctClasses([], WidgetClasses);
      copyButton := new CopyButtonElement(Fixed(text), classes, MarkdownLabel);
    }

    /** Clicks on the widget are not interpreted by the editor. */
    function IgnoreEvent(): (ignored: bool)
      ensures ignored
    {
      true
    }
  }
}
