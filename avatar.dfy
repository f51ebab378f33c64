/**
 * `Avatar`: shows the image, else the initials, else a silhouette. A failed
 * image load sets a flag in the component's state that nothing clears, so
 * the instance is a class holding that flag.
 */
module Avatar {
  import opened Text
  import opened Js

  datatype AvatarProps = AvatarProps(src: Option<string>, alt: Option<string>, initials: Option<string>)

  /** What the avatar shows. */
  datatype Content = Image(src: string, alt: string) | Initials(text: string) | Silhouette

  predicate IsLowerAscii(c: char) {
    'a' <= c <= 'z'
  }

  /** `toUpperCase` on one character, for ASCII letters. */
  function UpperAscii(c: char): (u: char)
    ensures !IsLowerAscii(u)
    ensures IsLowerAscii(c) ==> u as int == c as int - 32
    ensures !IsLowerAscii(c) ==> u == c
  {
    if IsLowerAscii(c) then (c as int - 32) as char else c
  }

  /**
   * `initials.slice(0, 2).toUpperCase()`: the first two characters (fewer
   * when the string is shorter), uppercased.
   */
  function NormaliseInitials(s: string): (r: string)
    ensures |r| == if |s| < 2 then |s| else 2
    ensures forall i :: 0 <= i < |r| ==> r[i] == UpperAscii(s[i])
    ensures forall i :: 0 <= i < |r| ==> !IsLowerAscii(r[i])
  {
    var head := if |s| < 2 then s else s[..2];
    seq(|head|, i requires 0 <= i < |head| => UpperAscii(head[i]))
  }

  /** Normalising initials that are already normalised changes nothing. */
  lemma NormaliseIdempotent(s: string)
    ensures NormaliseInitials(NormaliseInitials(s)) == NormaliseInitials(s)
  {
    var r := NormaliseInitials(s);
    var rr := NormaliseInitials(r);
    assert |rr| == |r|;
    forall i | 0 <= i < |r| ensures rr[i] == r[i] {
      assert !IsLowerAscii(r[i]);
    }
  }

  class Avatar {
    /** Whether the image has failed to load (`imageError`). */
    var imageError: bool

    /** A new avatar has seen no image error. */
    constructor()
      ensures !imageError
    {
      imageError := false;
    }

    /**
     * The choice the component renders. The image shows exactly when `src`
     * is non-empty and has not failed, with `alt` defaulting to the empty
     * string; otherwise non-empty initials show as at most two uppercased
     * characters; otherwise the silhouette.
     */
    function View(p: AvatarProps): (c: Content)
      reads this
      ensures c.Image? <==> Truthy(p.src) && !imageError
      ensures c.Image? ==> c.src == p.src.value && (c.alt == "" <==> !Truthy(p.alt))
      ensures c.Image? && Truthy(p.alt) ==> c.alt == p.alt.value
      ensures c.Initials? <==> !(Truthy(p.src) && !imageError) && Truthy(p.initials)
      ensures c.Initials? ==> c.text == NormaliseInitials(p.initials.value) && 1 <= |c.text| <= 2
      ensures c.Silhouette? <==> !(Truthy(p.src) && !imageError) && !Truthy(p.initials)
    {
      if Truthy(p.src) && !imageError then Image(p.src.value, if Truthy(p.alt) then p.alt.value else "")
      else if Truthy(p.initials) then Initials(NormaliseInitials(p.initials.value))
      else Silhouette
    }

    /**
     * The image's `onError`: the flag is set, and from then on no props,
     * not even a new `src`, bring an image back.
     */
    method HandleImageError()
      modifies this
      ensures imageError
      ensures forall p :: !View(p).Image?
    {
      imageError := true;
    }
  }
}
