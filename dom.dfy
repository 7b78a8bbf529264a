/** The page as the sticky-header code sees it: node identities and the two
    inline style properties it reads and writes. Measuring the DOM is not modelled;
    heights and offsets are given to the model as integers. */
module Dom {

  /** A node a context can be bound to: the window, or an element. */
  datatype Node = Window | Element(id: nat)

  datatype Option<T> = None | Some(value: T)

  /** The computed `position` values an element can have. */
  datatype Position = Static | Relative | Absolute | Fixed | Sticky

  /** A computed `top`: `auto` or a length in pixels. */
  datatype Top = Auto | Px(px: int)

  /** The inline `position` and `top` of an element. */
  datatype Css = Css(position: Position, top: Top)

  /** What sticking and coming off change on a sticker: its flag, its inline
      style and whether its placeholder is shown. */
  datatype Look = Look(sticked: bool, css: Css, placeholderVisible: bool)

  /** The look of a sticker stuck at vertical offset `top`: fixed, at that offset,
      with its placeholder shown to keep its place in the flow. */
  function StuckLook(top: int): (l: Look)
  {
    Look(true, Css(Fixed, Px(top)), true)
  }

  /** The look of a sticker in its static place: its original style restored and
      its placeholder hidden. */
  function UnstuckLook(staticCss: Css): (l: Look)
  {
    Look(false, staticCss, false)
  }
}
