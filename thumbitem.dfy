/** A thumbnail tile (Controls/ThumbItem): a label, and either a status
    glyph (loading, warning, error) or a thumbnail texture. */
module Thumbs {

  import opened Options

  /** A texture, by identity. */
  datatype Texture = Texture(id: int)

  /** C#'s integer division by 3, which truncates toward zero. */
  function Third(n: int): (r: int)
    ensures n >= 0 ==> 0 <= n - 3 * r < 3
    ensures n < 0 ==> -3 < n - 3 * r <= 0
  {
    if n >= 0 then n / 3 else -((-n) / 3)
  }

  const DefaultSize := 50

  class ThumbItem {
    var autoDestroyUnusedThumbImage: bool
    var userData: string
    var loadIcon: string
    var errorIcon: string
    var size: int
    var width: int
    var height: int
    /** The status glyph element's text; None while the element is absent. */
    var status: Option<string>
    var statusFontSize: int
    /** The thumbnail image; None while none is shown. */
    var thumb: Option<Texture>
    var labelText: string
    var labelVisible: bool
    /** The textures destroyed so far, in order. */
    var destroyed: seq<Texture>

    /** The texture the next removal of the thumbnail destroys: the one shown,
        when the tile owns its textures. */
    function Released(): seq<Texture>
      reads this
    {
      State().Released()
    }

    predicate ThumbIsShown()
      reads this
    {
      thumb.Some?
    }

    /** Never both a status and a thumbnail; the tile is square, and the
        status glyph is a third of the tile size. */
    predicate Valid()
      reads this
    {
      !(status.Some? && thumb.Some?)
      && width == size && height == size
      && (status.Some? ==> statusFontSize == Third(size))
    }

    /** The tile a layout file creates: a visible empty label and no status. */
    constructor Empty()
      ensures Valid() && status == None && thumb == None
      ensures size == DefaultSize && labelText == "" && labelVisible
      ensures loadIcon == "" && errorIcon == "" && !autoDestroyUnusedThumbImage && destroyed == []
    {
      autoDestroyUnusedThumbImage := false;
      userData := "";
      loadIcon := "";
      errorIcon := "";
      status := None;
      statusFontSize := 0;
      thumb := None;
      labelText := "";
      labelVisible := true;
      destroyed := [];
      size := 0;
      width := 0;
      height := 0;
      new;
      SetSize(DefaultSize);
    }

    /** A tile with a label (hidden when the text is null) that starts out
        showing the loading glyph. */
    constructor (labeltext: Option<string>, loadIcon: string, errorIcon: string)
      ensures Valid() && status == Some(loadIcon) && thumb == None && !ThumbIsShown()
      ensures size == DefaultSize && statusFontSize == Third(DefaultSize)
      ensures labelVisible <==> labeltext.Some?
      ensures labeltext.Some? ==> labelText == labeltext.value
      ensures this.loadIcon == loadIcon && this.errorIcon == errorIcon
      ensures !autoDestroyUnusedThumbImage && destroyed == []
    {
      autoDestroyUnusedThumbImage := false;
      userData := "";
      this.loadIcon := loadIcon;
      this.errorIcon := errorIcon;
      status := None;
      statusFontSize := 0;
      thumb := None;
      labelText := if labeltext.Some? then labeltext.value else "";
      labelVisible := labeltext.Some?;
      destroyed := [];
      size := 0;
      width := 0;
      height := 0;
      new;
      SetSize(DefaultSize);
      ShowStatus(this.loadIcon);
    }

    /** A tile without a label. */
    constructor WithIcons(loadIcon: string, errorIcon: string)
      ensures Valid() && status == Some(loadIcon) && thumb == None
      ensures size == DefaultSize && !labelVisible
      ensures this.loadIcon == loadIcon && this.errorIcon == errorIcon
      ensures !autoDestroyUnusedThumbImage && destroyed == []
    {
      autoDestroyUnusedThumbImage := false;
      userData := "";
      this.loadIcon := loadIcon;
      this.errorIcon := errorIcon;
      status := None;
      statusFontSize := 0;
      thumb := None;
      labelText := "";
      labelVisible := false;
      destroyed := [];
      size := 0;
      width := 0;
      height := 0;
      new;
      SetSize(DefaultSize);
      ShowStatus(this.loadIcon);
    }

    /** Removes the thumbnail and the status glyph. */
    method Dispose()
      requires Valid()
      modifies this
      ensures Valid() && status == None && thumb == None
      ensures destroyed == old(destroyed) + old(Released())
      ensures size == old(size) && Unchanged(old(Snapshot()))
      ensures State() == old(State()).Disposed()
    {
      ShowThumb(false, None);
      HideStatus();
    }

    /** Sets the tile's width and height, and the glyph's font size when a
        glyph is shown. */
    method SetSize(s: int)
      requires !(status.Some? && thumb.Some?)
      modifies this
      ensures Valid() && size == s
      ensures status == old(status) && thumb == old(thumb) && destroyed == old(destroyed)
      ensures status.None? ==> statusFontSize == old(statusFontSize)
      ensures Unchanged(old(Snapshot()))
      ensures State() == old(State()).Resized(s)
    {
      size := s;
      width := s;
      height := s;
      UpdateContentSize();
    }

    /** With show and a texture: hides the status and shows the texture.
        With show and no texture: shows the error glyph. Without show:
        removes the thumbnail and leaves the status alone. When the tile
        owns its textures, the one shown before is destroyed first. */
    method ShowThumb(show: bool, texture: Option<Texture>)
      requires Valid()
      modifies this
      decreases if show then 2 else 0
      ensures Valid()
      ensures destroyed == old(destroyed) + old(Released())
      ensures show && texture.Some? ==> thumb == texture && status == None && ThumbIsShown()
      ensures show && texture.None? ==> thumb == None && status == Some(errorIcon)
      ensures !show ==> thumb == None && status == old(status) && statusFontSize == old(statusFontSize)
      ensures size == old(size) && Unchanged(old(Snapshot()))
      ensures State() == if show then old(State()).Shown(texture) else old(State()).Unshown()
    {
      if autoDestroyUnusedThumbImage && thumb.Some? {
        var oldTexture := thumb.value;
        thumb := None;
        destroyed := destroyed + [oldTexture];
      }
      if show {
        if texture.Some? {
          HideStatus();
          thumb := texture;
        } else {
          ShowStatus(errorIcon);
        }
      } else if thumb.Some? {
        thumb := None;
      }
    }

    method HideStatus()
      modifies this
      requires Valid()
      ensures Valid() && status == None
      ensures thumb == old(thumb) && size == old(size) && destroyed == old(destroyed)
      ensures width == old(width) && height == old(height) && statusFontSize == old(statusFontSize)
      ensures Unchanged(old(Snapshot()))
    {
      if status.Some? {
        status := None;
      }
    }

    /** Removes any thumbnail and shows the glyph ico. */
    method ShowStatus(ico: string)
      requires Valid()
      modifies this
      decreases 1
      ensures Valid() && status == Some(ico) && thumb == None && !ThumbIsShown()
      ensures destroyed == old(destroyed) + old(Released())
      ensures size == old(size) && Unchanged(old(Snapshot()))
      ensures State() == old(State()).Flagged(ico)
    {
      ShowThumb(false, None);
      if status.None? {
        status := Some(ico);
        UpdateContentSize();
      } else {
        status := Some(ico);
      }
    }

    method UpdateContentSize()
      modifies this
      ensures status.Some? ==> statusFontSize == Third(size)
      ensures status.None? ==> statusFontSize == old(statusFontSize)
      ensures status == old(status) && thumb == old(thumb) && size == old(size)
      ensures width == old(width) && height == old(height) && destroyed == old(destroyed)
      ensures Unchanged(old(Snapshot()))
    {
      if status.Some? {
        statusFontSize := Third(size);
      }
    }

    /** The fields no display operation changes. */
    function Snapshot(): Fixed
      reads this
    {
      Fixed(autoDestroyUnusedThumbImage, userData, loadIcon, errorIcon, labelText, labelVisible)
    }

    function State(): ItemState
      reads this
    {
      ItemState(Snapshot(), size, width, height, status, statusFontSize, thumb, destroyed)
    }

    predicate Unchanged(before: Fixed)
      reads this
    {
      Snapshot() == before
    }
  }

  /** Everything a tile shows or owns. */
  datatype ItemState = ItemState(fixed: Fixed, size: int, width: int, height: int,
                                 status: Option<string>, statusFontSize: int,
                                 thumb: Option<Texture>, destroyed: seq<Texture>)
  {
    /** The texture removing the thumbnail destroys: the one shown, when the
        tile owns its textures. */
    function Released(): seq<Texture>
    {
      if fixed.autoDestroy && thumb.Some? then [thumb.value] else []
    }

    /** The state ShowThumb(false) leaves: no thumbnail, an owned one logged
        as destroyed, the status glyph kept. */
    function Unshown(): ItemState
    {
      this.(thumb := None, destroyed := destroyed + Released())
    }

    /** The state Dispose leaves: nothing shown, and a thumbnail the tile
        owns logged as destroyed. */
    function Disposed(): ItemState
    {
      Unshown().(status := None)
    }

    /** The state ShowStatus(ico) leaves: the thumbnail removed and the glyph
        ico shown, its font sized when the glyph element is created. */
    function Flagged(ico: string): ItemState
    {
      Unshown().(status := Some(ico), statusFontSize := if status.None? then Third(size) else statusFontSize)
    }

    /** The state ShowThumb(true, texture) leaves: the texture and no glyph,
        or, without a texture, the error glyph. */
    function Shown(texture: Option<Texture>): ItemState
    {
      if texture.Some? then Unshown().(status := None, thumb := texture) else Flagged(fixed.errorIcon)
    }

    /** The state after ShowThumb(true, texture) is called n times. */
    function ShownTimes(texture: Option<Texture>, n: nat): ItemState
    {
      if n == 0 then this else ShownTimes(texture, n - 1).Shown(texture)
    }

    /** The state SetSize(s) leaves: a square of side s, and a shown glyph
        at a third of it. */
    function Resized(s: int): ItemState
    {
      this.(size := s, width := s, height := s,
            statusFontSize := if status.Some? then Third(s) else statusFontSize)
    }
  }

  /** Disposing a tile twice is disposing it once. */
  lemma DisposedTwice(st: ItemState)
    ensures st.Disposed().Disposed() == st.Disposed()
  {
  }

  /** Showing the same glyph twice is showing it once. */
  lemma FlaggedTwice(st: ItemState, ico: string)
    ensures st.Flagged(ico).Flagged(ico) == st.Flagged(ico)
  {
  }

  /** n copies of xs, one after another. */
  function Copies(xs: seq<Texture>, n: nat): (r: seq<Texture>)
    ensures |r| == n * |xs|
  {
    if n == 0 then [] else Copies(xs, n - 1) + xs
  }

  /** Showing a texture again changes nothing but the log: an owned texture
      is destroyed and shown once more each further time. */
  lemma {:induction false} ShownAgain(st: ItemState, texture: Option<Texture>, n: nat)
    requires n >= 1
    ensures st.ShownTimes(texture, n)
         == st.Shown(texture).(destroyed := st.Shown(texture).destroyed + Copies(st.Shown(texture).Released(), n - 1))
  {
    if n > 1 {
      ShownAgain(st, texture, n - 1);
    }
  }

  /** Resizing a tile twice to the same size is resizing it once. */
  lemma ResizedTwice(st: ItemState, s: int)
    ensures st.Resized(s).Resized(s) == st.Resized(s)
  {
  }

  datatype Fixed = Fixed(autoDestroy: bool, userData: string, loadIcon: string, errorIcon: string,
                         labelText: string, labelVisible: bool)
}
