/**
 * One media attachment: the area it caches for sorting and the
 * `W&times;H` text it shows in the Dimensions column.
 */
module Attachments {
  import opened Wrappers
  import opened Decimal
  import opened WordPress

  /** PHP's `absint`: `abs(intval(x))`, on integer input. */
  function Absint(x: int): (r: nat)
    ensures r == x || r == -x
  {
    if x < 0 then -x else x
  }

  /**
   * What `get_dimensions` returns: both entries `''` when there is no
   * metadata, otherwise both entries passed through `absint`.
   */
  datatype Dimensions = Unset | Dimensions(width: nat, height: nat)

  /**
   * The area `update_meta_data` computes: the product of the absolute width
   * and height when the metadata sets both, 0 on every other path.
   */
  function Area(m: Option<Meta>): (size: nat)
    ensures size > 0 <==> m.Some? && m.value.width.Some? && m.value.height.Some?
                          && m.value.width.value != 0 && m.value.height.value != 0
  {
    match m
    case Some(Meta(Some(w), Some(h), _)) => Absint(w) * Absint(h)
    case _ => 0
  }

  /**
   * `get_dimensions`: `shortcode_atts` fills a missing width or height with
   * `''`, which `absint` turns into 0.
   */
  function DimensionsOf(m: Option<Meta>): (d: Dimensions)
    ensures d.Unset? <==> !IsTruthy(m)
    ensures d.Dimensions? ==> match m.value.width case Some(w) => d.width == Absint(w) case None => d.width == 0
    ensures d.Dimensions? ==> match m.value.height case Some(h) => d.height == Absint(h) case None => d.height == 0
  {
    if IsTruthy(m) then Dimensions(Absint(m.value.width.GetOr(0)), Absint(m.value.height.GetOr(0)))
    else Unset
  }

  /** The cached area is always the product of the dimensions shown for the same metadata. */
  lemma AreaIsProductOfDimensions(m: Option<Meta>)
    ensures Area(m) == match DimensionsOf(m) case Unset => 0 case Dimensions(w, h) => w * h
  {
  }

  /** The PHP version running the comparison `'' != $x` on an integer `$x`. */
  datatype Php = Php7 | Php8

  /**
   * `'' != x` for an integer x: PHP 7 converts `''` to 0, PHP 8 compares the
   * strings `''` and the decimal form of x, which always differ.
   */
  predicate DiffersFromEmpty(x: nat, php: Php) {
    php == Php8 || x != 0
  }

  const Times := "&times;"

  /** `width . '&times;' . height`. */
  function FormatDimensions(w: nat, h: nat): string {
    NatToString(w) + Times + NatToString(h)
  }

  /** Position of the first `&` in `s`, or `|s|` when there is none. */
  function AmpersandIndex(s: string): (i: nat)
    ensures i <= |s|
    ensures forall j :: 0 <= j < i ==> s[j] != '&'
    ensures i < |s| ==> s[i] == '&'
  {
    if s == [] || s[0] == '&' then 0 else 1 + AmpersandIndex(s[1..])
  }

  /** Reads a `W&times;H` text back into its two numbers. */
  function ParseDimensions(s: string): Option<(nat, nat)> {
    var i := AmpersandIndex(s);
    var w, rest := s[..i], s[i..];
    if |rest| >= |Times| && rest[..|Times|] == Times then
      var h := rest[|Times|..];
      if IsCanonical(w) && IsCanonical(h) then Some((ParseNat(w), ParseNat(h))) else None
    else None
  }

  lemma FormatDimensionsRoundTrip(w: nat, h: nat)
    ensures ParseDimensions(FormatDimensions(w, h)) == Some((w, h))
  {
    var a, b := NatToString(w), NatToString(h);
    var s := FormatDimensions(w, h);
    var i := AmpersandIndex(s);
    assert s[|a|] == '&';
    assert i == |a|;
    assert s[..i] == a;
    assert s[i..][..|Times|] == Times;
    assert s[i..][|Times|..] == b;
    ParseNatToString(w);
    ParseNatToString(h);
  }

  /**
   * `get_dimensions_display`: the empty string when either entry equals
   * `''` under PHP's loose comparison, `width&times;height` otherwise.
   */
  function Display(d: Dimensions, php: Php): (s: string)
    ensures s != "" ==> d.Dimensions? && ParseDimensions(s) == Some((d.width, d.height))
    ensures d.Dimensions? && php == Php8 ==> s != ""
  {
    match d
    case Unset => ""
    case Dimensions(w, h) =>
      if DiffersFromEmpty(w, php) && DiffersFromEmpty(h, php) then
        FormatDimensionsRoundTrip(w, h);
        FormatDimensions(w, h)
      else ""
  }

  /**
   * When the column is blank: under PHP 8 exactly when there is no metadata;
   * under PHP 7 also when either dimension is 0.
   */
  lemma DisplayBlankIff(m: Option<Meta>)
    ensures Display(DimensionsOf(m), Php8) == "" <==> !IsTruthy(m)
    ensures var d := DimensionsOf(m);
      Display(d, Php7) == "" <==> (d.Unset? || d.width == 0 || d.height == 0)
  {
  }

  /** Metadata that has entries but no width shows a width of 0 under PHP 8 and nothing under PHP 7. */
  lemma DisplayWithoutWidth(m: Option<Meta>)
    requires IsTruthy(m) && m.value.width.None?
    ensures Display(DimensionsOf(m), Php8) == "0&times;" + NatToString(Absint(m.value.height.GetOr(0)))
    ensures Display(DimensionsOf(m), Php7) == ""
  {
  }

  /** Metadata of 4 by 3 pixels shows as `4&times;3`. */
  lemma DisplayFourByThree(php: Php)
    ensures Display(DimensionsOf(Some(Meta(Some(4), Some(3), 0))), php) == "4&times;3"
  {
  }

  class Attachment {
    const id: nat

    /** `new JajaDi_Show_Dimensions_Attachment( $attachment_id )`. */
    constructor (attachmentId: int)
      ensures id == Absint(attachmentId)
    {
      id := Absint(attachmentId);
    }

    function GetDimensions(site: Site): (d: Dimensions)
      reads site`attachmentMeta
      ensures d.Unset? <==> !IsTruthy(MetadataOf(site.attachmentMeta, id))
      ensures d.Dimensions? ==> d == Dimensions(Absint(site.attachmentMeta[id].width.GetOr(0)),
                                                Absint(site.attachmentMeta[id].height.GetOr(0)))
    {
      DimensionsOf(MetadataOf(site.attachmentMeta, id))
    }

    /** Reads the attachment metadata only, never the cached area. */
    function GetDimensionsDisplay(site: Site, php: Php): (s: string)
      reads site`attachmentMeta
      ensures s != "" ==> IsTruthy(MetadataOf(site.attachmentMeta, id))
      ensures s != "" ==> ParseDimensions(s) == Some((Absint(site.attachmentMeta[id].width.GetOr(0)),
                                                      Absint(site.attachmentMeta[id].height.GetOr(0))))
      ensures php == Php8 && IsTruthy(MetadataOf(site.attachmentMeta, id)) ==> s != ""
    {
      Display(GetDimensions(site), php)
    }

    /** Writes the area under `jajadi_show_dimensions` on every path, and returns it. */
    method UpdateMetaData(site: Site) returns (size: nat)
      modifies site`postMeta
      ensures size == Area(MetadataOf(site.attachmentMeta, id))
      ensures site.postMeta == old(site.postMeta)[id := size]
    {
      size := 0;
      var metadata := MetadataOf(site.attachmentMeta, id);
      if IsTruthy(metadata) {
        if metadata.value.width.Some? && metadata.value.height.Some? {
          size := Absint(metadata.value.width.value) * Absint(metadata.value.height.value);
          site.postMeta := site.postMeta[id := size];
        } else {
          site.postMeta := site.postMeta[id := size];
        }
      } else {
        site.postMeta := site.postMeta[id := size];
      }
    }

    /** Removes this attachment's entry; a missing entry is no error. */
    method DeleteMetaData(site: Site)
      modifies site`postMeta
      ensures site.postMeta == old(site.postMeta) - {id}
    {
      site.postMeta := site.postMeta - {id};
    }
  }
}
