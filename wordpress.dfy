/**
 * The parts of WordPress's persistent state the plugin reads and writes,
 * gathered in one object instead of reached through global functions.
 */
module WordPress {
  import opened Wrappers
  import opened Versions

  /**
   * An attachment's metadata array as `wp_get_attachment_metadata` returns it:
   * its `width` and `height` entries (None when not set) and how many other
   * entries (`file`, `sizes`, `image_meta`, ...) it holds.
   */
  datatype Meta = Meta(width: Option<int>, height: Option<int>, otherEntries: nat)

  /** `wp_get_attachment_metadata(id)`: None stands for its `false`. */
  function MetadataOf(store: map<nat, Meta>, id: nat): Option<Meta> {
    if id in store then Some(store[id]) else None
  }

  /** PHP's `if ( $metadata )`: false and the empty array are falsy. */
  predicate IsTruthy(m: Option<Meta>)
    ensures IsTruthy(m) <==> m.Some? && m.value != Meta(None, None, 0)
  {
    m.Some? && (m.value.width.Some? || m.value.height.Some? || m.value.otherEntries > 0)
  }

  class Site {
    /** Attachment metadata, by post id; the plugin only reads it. */
    var attachmentMeta: map<nat, Meta>
    /** The post meta entries under the key `jajadi_show_dimensions`, by post id. */
    var postMeta: map<nat, nat>
    /** The ids `get_posts` lists for all posts of type attachment. */
    var attachments: seq<int>
    /** The option `jajadi_show_dimensions_version`; None when it is not stored. */
    var versionOption: Option<Version>

    constructor (attachmentMeta: map<nat, Meta>, postMeta: map<nat, nat>,
                 attachments: seq<int>, versionOption: Option<Version>)
      ensures this.attachmentMeta == attachmentMeta && this.postMeta == postMeta
      ensures this.attachments == attachments && this.versionOption == versionOption
    {
      this.attachmentMeta := attachmentMeta;
      this.postMeta := postMeta;
      this.attachments := attachments;
      this.versionOption := versionOption;
    }
  }
}
