/**
 * The plugin object: the list-table filters it registers, the bulk
 * recompute and removal of the cached areas, and the one-time migration to
 * the cache format of version 1.3.
 */
module ShowDimensions {
  import opened Wrappers
  import opened Versions
  import opened PhpArray
  import opened WordPress
  import opened Attachments

  /** The post meta key of the cached area, which is also the sort key of the column. */
  const SortKey := "jajadi_show_dimensions"

  /** The list-table column id. */
  const ColumnId := "dimensions"

  // ---------------------------------------------------------------------------
  // List-table filters

  /** `manage_upload_columns`: adds (or relabels) the Dimensions column. */
  function ColumnRegister(columns: Entries<string>, title: string): (r: Entries<string>)
    requires DistinctKeys(columns)
    ensures DistinctKeys(r)
    ensures Get(r, ColumnId) == Some(title)
    ensures forall k :: k != ColumnId ==> Get(r, k) == Get(columns, k)
    ensures HasKey(columns, ColumnId) ==> Keys(r) == Keys(columns)
    ensures !HasKey(columns, ColumnId) ==> r == columns + [(ColumnId, title)]
  {
    Set(columns, ColumnId, title)
  }

  /** `manage_upload_sortable_columns`: makes the column sort by the cached area. */
  function ColumnRegisterSortable(columns: Entries<string>): (r: Entries<string>)
    requires DistinctKeys(columns)
    ensures DistinctKeys(r)
    ensures Get(r, ColumnId) == Some(SortKey)
    ensures forall k :: k != ColumnId ==> Get(r, k) == Get(columns, k)
    ensures HasKey(columns, ColumnId) ==> Keys(r) == Keys(columns)
    ensures !HasKey(columns, ColumnId) ==> r == columns + [(ColumnId, SortKey)]
  {
    Set(columns, ColumnId, SortKey)
  }

  /**
   * The `request` filter: a request ordered by the column is turned into a
   * numeric order on the cached meta value; any other request passes through.
   */
  function ColumnOrderby(vars: Entries<string>): (r: Entries<string>)
    requires DistinctKeys(vars)
    ensures DistinctKeys(r)
    ensures Get(vars, "orderby") == Some(SortKey) ==>
      && Get(r, "meta_key") == Some(SortKey)
      && Get(r, "orderby") == Some("meta_value_num")
      && (forall k :: k != "meta_key" && k != "orderby" ==> Get(r, k) == Get(vars, k))
      && |vars| <= |r| && Keys(r)[..|vars|] == Keys(vars)
    ensures Get(vars, "orderby") != Some(SortKey) ==> r == vars
  {
    if Get(vars, "orderby") == Some(SortKey) then
      var extra := [("meta_key", SortKey), ("orderby", "meta_value_num")];
      assert "meta_key" != "orderby";
      assert Get(extra[1..], "meta_key") == None;
      assert Get(extra, "orderby") == Some("meta_value_num");
      assert forall k :: k != "meta_key" && k != "orderby" ==> Get(extra, k) == Get(extra[1..], k) == None;
      Merge(vars, extra)
    else vars
  }

  /** A rewritten request is left alone when the filter runs again. */
  lemma ColumnOrderbyIdempotent(vars: Entries<string>)
    requires DistinctKeys(vars)
    ensures ColumnOrderby(ColumnOrderby(vars)) == ColumnOrderby(vars)
  {
  }

  // ---------------------------------------------------------------------------
  // The cache over a list of attachments

  /** The cache entries the attachment ids in `ids` stand for. */
  function IdSet(ids: seq<int>): set<nat> {
    set x | x in ids :: Absint(x)
  }

  /** The area cached for attachment `id` when it is recomputed. */
  function AreaFor(meta: map<nat, Meta>, id: nat): nat {
    Area(MetadataOf(meta, id))
  }

  lemma IdSetSnoc(ids: seq<int>)
    requires ids != []
    ensures IdSet(ids) == IdSet(ids[..|ids| - 1]) + {Absint(ids[|ids| - 1])}
  {
    assert ids == ids[..|ids| - 1] + [ids[|ids| - 1]];
  }

  /**
   * The cache after `update_meta_data` ran for each of `ids`, first to last.
   * Whatever the order, every listed attachment ends up with an entry holding
   * its area and every other entry stays as it was.
   */
  function Refreshed(cache: map<nat, nat>, meta: map<nat, Meta>, ids: seq<int>): (r: map<nat, nat>)
    ensures r.Keys == cache.Keys + IdSet(ids)
    ensures forall k :: k in IdSet(ids) ==> r[k] == AreaFor(meta, k)
    ensures forall k :: k in cache && k !in IdSet(ids) ==> r[k] == cache[k]
    decreases |ids|
  {
    if ids == [] then cache
    else
      var id := Absint(ids[|ids| - 1]);
      IdSetSnoc(ids);
      Refreshed(cache, meta, ids[..|ids| - 1])[id := AreaFor(meta, id)]
  }

  /**
   * The cache after `delete_meta_data` ran for each of `ids`, first to last:
   * exactly the entries of the attachments not listed remain.
   */
  function Purged(cache: map<nat, nat>, ids: seq<int>): (r: map<nat, nat>)
    ensures r == cache - IdSet(ids)
    decreases |ids|
  {
    if ids == [] then cache
    else
      IdSetSnoc(ids);
      Purged(cache, ids[..|ids| - 1]) - {Absint(ids[|ids| - 1])}
  }

  /** Removing the entries before recomputing them makes no difference to the result. */
  lemma PurgeThenRefresh(cache: map<nat, nat>, meta: map<nat, Meta>, ids: seq<int>)
    ensures Refreshed(Purged(cache, ids), meta, ids) == Refreshed(cache, meta, ids)
  {
    assert Refreshed(Purged(cache, ids), meta, ids).Keys == Refreshed(cache, meta, ids).Keys;
  }

  /** Recomputing twice is recomputing once. */
  lemma RefreshIdempotent(cache: map<nat, nat>, meta: map<nat, Meta>, ids: seq<int>)
    ensures Refreshed(Refreshed(cache, meta, ids), meta, ids) == Refreshed(cache, meta, ids)
  {
    assert Refreshed(Refreshed(cache, meta, ids), meta, ids).Keys == Refreshed(cache, meta, ids).Keys;
  }

  /** The stored version, read with the default `'0'`. */
  function StoredVersion(version: Option<Version>): Version {
    version.GetOr(DefaultVersion)
  }

  /**
   * The cache and the version option after `check_upgrade`: on the upload
   * screen with a stored version below 1.3, everything is removed, then
   * recomputed, and 1.3 recorded; otherwise nothing changes.
   */
  function Upgraded(onUploadScreen: bool, cache: map<nat, nat>, version: Option<Version>,
                    meta: map<nat, Meta>, ids: seq<int>): (r: (map<nat, nat>, Option<Version>))
    ensures onUploadScreen ==> !Less(StoredVersion(r.1), CurrentVersion)
    ensures r.0 == cache || r.0.Keys == cache.Keys + IdSet(ids)
  {
    CompareZeroIffEqual(CurrentVersion, CurrentVersion);
    if onUploadScreen && Less(StoredVersion(version), CurrentVersion) then
      (Refreshed(Purged(cache, ids), meta, ids), Some(CurrentVersion))
    else (cache, version)
  }

  /**
   * When the migration runs, every listed attachment ends up with its current
   * area, the other entries are kept, and the stored version is no longer
   * below 1.3; a second run changes nothing.
   */
  lemma UpgradeSpec(onUploadScreen: bool, cache: map<nat, nat>, version: Option<Version>,
                    meta: map<nat, Meta>, ids: seq<int>)
    ensures var (cache', version') := Upgraded(onUploadScreen, cache, version, meta, ids);
      && (onUploadScreen ==> !Less(StoredVersion(version'), CurrentVersion))
      && (if onUploadScreen && Less(StoredVersion(version), CurrentVersion)
          then cache' == Refreshed(cache, meta, ids) && version' == Some(CurrentVersion)
          else cache' == cache && version' == version)
      && Upgraded(onUploadScreen, cache', version', meta, ids) == (cache', version')
  {
    PurgeThenRefresh(cache, meta, ids);
    CompareZeroIffEqual(CurrentVersion, CurrentVersion);
  }

  // ---------------------------------------------------------------------------
  // The plugin object

  class Plugin {
    /** The WordPress state the plugin works on. */
    const site: Site

    /** Hook registration is not modelled; the constructor only binds the state. */
    constructor (site: Site)
      ensures this.site == site
    {
      this.site := site;
    }

    /**
     * `manage_media_custom_column`: for the Dimensions column of an image,
     * refreshes its cached area and yields the text to show.
     */
    method ColumnDisplay(columnName: string, postId: int, isImage: bool, php: Php) returns (output: string)
      modifies site`postMeta
      ensures var id := Absint(postId);
        if columnName == ColumnId && isImage then
          && site.postMeta == old(site.postMeta)[id := AreaFor(site.attachmentMeta, id)]
          && output == Display(DimensionsOf(MetadataOf(site.attachmentMeta, id)), php)
        else
          site.postMeta == old(site.postMeta) && output == ""
    {
      if columnName != ColumnId || !isImage {
        return "";
      }
      var attachment := new Attachment(postId);
      var _ := attachment.UpdateMetaData(site);
      output := attachment.GetDimensionsDisplay(site, php);
    }

    /** `update_metadata`: recomputes the cached area of every attachment. */
    method UpdateMetadata()
      modifies site`postMeta
      ensures site.postMeta == Refreshed(old(site.postMeta), site.attachmentMeta, site.attachments)
      ensures forall id :: id in site.attachments ==>
        Absint(id) in site.postMeta && site.postMeta[Absint(id)] == AreaFor(site.attachmentMeta, Absint(id))
      ensures forall k :: k in old(site.postMeta) && k !in IdSet(site.attachments) ==>
        k in site.postMeta && site.postMeta[k] == old(site.postMeta)[k]
      ensures site.postMeta.Keys == old(site.postMeta).Keys + IdSet(site.attachments)
    {
      var posts := site.attachments;
      if posts != [] {
        for i := 0 to |posts|
          invariant site.postMeta == Refreshed(old(site.postMeta), site.attachmentMeta, posts[..i])
        {
          var attachment := new Attachment(posts[i]);
          var _ := attachment.UpdateMetaData(site);
          assert posts[..i + 1][..i] == posts[..i];
        }
        assert posts[..|posts|] == posts;
      }
    }

    /** `delete_metadata`: removes the cached area of every attachment. */
    method DeleteMetadata()
      modifies site`postMeta
      ensures site.postMeta == Purged(old(site.postMeta), site.attachments)
      ensures site.postMeta == old(site.postMeta) - IdSet(site.attachments)
    {
      var posts := site.attachments;
      if posts != [] {
        for i := 0 to |posts|
          invariant site.postMeta == Purged(old(site.postMeta), posts[..i])
        {
          var attachment := new Attachment(posts[i]);
          attachment.DeleteMetaData(site);
          assert posts[..i + 1][..i] == posts[..i];
        }
        assert posts[..|posts|] == posts;
      }
    }

    /** `check_upgrade`, run when an admin page loads. */
    method CheckUpgrade(onUploadScreen: bool)
      modifies site`postMeta, site`versionOption
      ensures (site.postMeta, site.versionOption)
        == Upgraded(onUploadScreen, old(site.postMeta), old(site.versionOption), site.attachmentMeta, site.attachments)
    {
      if onUploadScreen {
        var version := StoredVersion(site.versionOption);
        if Less(version, CurrentVersion) {
          DeleteMetadata();
          UpdateMetadata();
          site.versionOption := Some(CurrentVersion);
        }
      }
    }

    /** `activate`: caches the area of every attachment. */
    method Activate()
      modifies site`postMeta
      ensures site.postMeta == Refreshed(old(site.postMeta), site.attachmentMeta, site.attachments)
    {
      UpdateMetadata();
    }

    /** `deactivate`: removes every cached area and the version option. */
    method Deactivate()
      modifies site`postMeta, site`versionOption
      ensures site.postMeta == old(site.postMeta) - IdSet(site.attachments)
      ensures site.versionOption == None
    {
      DeleteMetadata();
      site.versionOption := None;
    }
  }
}
