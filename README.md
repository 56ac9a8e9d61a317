# Show Dimensions in Library — a Dafny model

The WordPress plugin "Show Dimensions in Library" adds a Dimensions column to
the media library. The column shows each image as `W&times;H` and sorts by
pixel area. To sort, the plugin caches each attachment's area as the post
meta entry `jajadi_show_dimensions`. The cache is written whenever an
image's Dimensions cell is drawn, rebuilt for every attachment on activation, and removed on
deactivation. A migration also rebuilds it, gated on the stored version
option being below 1.3. It runs on the first load of the upload screen after
an upgrade. Activation never stores the version and deactivation deletes
it, so the migration also runs after every fresh activation or
reactivation.

This project models that logic and proves its properties.

- `Site` (module `WordPress`) is an object holding the WordPress state the
  plugin touches: attachment metadata, the cached areas, the attachment
  list, and the version option.
- `Attachment` (module `Attachments`) computes, caches and deletes one area,
  and renders the display text.
- `Plugin` (module `ShowDimensions`) runs the bulk loops, the migration,
  activation and deactivation.
- The list-table filters are pure functions over PHP arrays. `PhpArray`
  models those arrays as ordered, string-keyed entries, so the position of
  the added column is kept.
- `Versions` models `version_compare` on numeric versions.
- `Decimal` models PHP's printing of integers.

Where the code's behaviour differs from what one might expect, the model follows the code:

- `version_compare` has no zero padding. When one version runs out of parts
  first, it is the lower one (`'1.3' < '1.3.0'`). The model follows PHP.
- `absint` is the absolute value, not a clamp to 0: a width of -5 becomes 5.
- The display uses the entity `&times;`, not the `×` character.
- The display is blank only when there is no metadata at all, or (under
  PHP 7's loose comparison) when a dimension is 0. Metadata that lacks a
  width shows `0&times;H` under PHP 8. Both PHP behaviours are modelled
  through the `Php` parameter.

## Model

| member | source | states |
|---|---|---|
| `Attachments.Attachment.constructor` | jajadi-show-dimensions.php:198-200 | the attachment id is `absint` of the argument |
| `Attachments.Absint` | jajadi-show-dimensions.php:248 | `absint` yields the absolute value, never a negative number |
| `Attachments.Area` | jajadi-show-dimensions.php:243-248 | the area is positive exactly when the metadata sets both width and height and neither is 0 |
| `Attachments.DimensionsOf` | jajadi-show-dimensions.php:207-220 | both entries are `''` exactly when the metadata is falsy (absent or an empty array); otherwise each is `absint` of the stored value, or 0 when that value is missing |
| `WordPress.IsTruthy` | jajadi-show-dimensions.php:214 | `if ( $metadata )` holds exactly when there is metadata and it is not the empty array |
| `Attachments.Attachment.GetDimensions` | jajadi-show-dimensions.php:207-220 | unset exactly when this attachment's metadata is falsy; otherwise `absint` of its stored width and height, with 0 for a missing one |
| `Attachments.AreaIsProductOfDimensions` | jajadi-show-dimensions.php:242-258 | for any metadata, the cached area is the product of the dimensions shown, and 0 when there are none |
| `Attachments.Attachment.UpdateMetaData` | jajadi-show-dimensions.php:242-258 | returns the area and writes that same value as this attachment's entry on every path; no other entry changes |
| `Attachments.Attachment.DeleteMetaData` | jajadi-show-dimensions.php:263-265 | removes only this attachment's entry; removing a missing entry is allowed |
| `Attachments.Attachment.GetDimensionsDisplay` | jajadi-show-dimensions.php:227-235 | reads only the attachment metadata, never the cached area; non-blank text needs metadata and reads back to `absint` of the stored width and height (0 for a missing one); under PHP 8 metadata always gives non-blank text |
| `Attachments.DisplayBlankIff` | jajadi-show-dimensions.php:230-234 | blank exactly when there is no metadata (PHP 8), or also when a dimension is 0 (PHP 7) |
| `Attachments.Display` | jajadi-show-dimensions.php:230-234 | non-blank text always reads back to exactly the two dimensions; under PHP 8 a set of dimensions is never blank |
| `Attachments.DisplayWithoutWidth` | jajadi-show-dimensions.php:215-216 | metadata without a width shows `0&times;H` under PHP 8 and nothing under PHP 7 |
| `Attachments.FormatDimensionsRoundTrip` | jajadi-show-dimensions.php:231 | `width . '&times;' . height` parses back to `(width, height)` |
| `Attachments.DisplayFourByThree` | jajadi-show-dimensions.php:231 | 4 by 3 pixels is shown as `4&times;3` |
| `Decimal.NatToString` | jajadi-show-dimensions.php:231 | PHP prints an integer as at least one digit, with no leading zero |
| `Decimal.ParseNatToString` | jajadi-show-dimensions.php:231 | reading a printed integer gives the integer back |
| `Decimal.NatToStringParse` | jajadi-show-dimensions.php:231 | printing the value of a canonical numeral gives the numeral back |
| `Decimal.NatToStringInjective` | jajadi-show-dimensions.php:231 | different integers print differently |
| `Versions.Compare` | jajadi-show-dimensions.php:156 | `version_compare` answers -1, 0 or 1, comparing numeric parts from the left; what the answers mean is fixed by the lemmas below |
| `Versions.LessIsLexLess` | jajadi-show-dimensions.php:156 | `version_compare(a, b, '<')` holds exactly when `a` is a proper prefix of `b` or is smaller at the first differing part |
| `Versions.CompareAntisymmetric` | jajadi-show-dimensions.php:156 | swapping the versions negates the comparison |
| `Versions.CompareZeroIffEqual` | jajadi-show-dimensions.php:156 | two versions compare equal exactly when they have the same parts |
| `Versions.LessTransitive` | jajadi-show-dimensions.php:156 | the "lower than" relation is transitive |
| `Versions.BelowCurrent` | jajadi-show-dimensions.php:155-156 | the versions below `'1.3'` are exactly the empty version, `0…`, `1` and `1.0…`–`1.2…`; the default `'0'` is among them |
| `PhpArray.Set` | jajadi-show-dimensions.php:74 | `$a[k] = v` makes `k` map to `v` and leaves every other key unchanged; an existing key keeps its position, a new key is appended; keys stay distinct |
| `PhpArray.Merge` | jajadi-show-dimensions.php:98-101 | `array_merge` with string keys takes each key from the second array when it is there, else from the first; the first array's keys keep their order at the front |
| `ShowDimensions.ColumnRegister` | jajadi-show-dimensions.php:73-76 | only the `dimensions` column is set, to the title; an existing column keeps its place, otherwise it is appended last |
| `ShowDimensions.ColumnRegisterSortable` | jajadi-show-dimensions.php:84-87 | only `dimensions` is set, to the sort key `jajadi_show_dimensions`; no other column changes |
| `ShowDimensions.ColumnOrderby` | jajadi-show-dimensions.php:95-105 | when `orderby` is `jajadi_show_dimensions`, the request gets `meta_key => jajadi_show_dimensions` and `orderby => meta_value_num`; all other keys and the order of existing keys are kept; any other request is returned unchanged |
| `ShowDimensions.ColumnOrderbyIdempotent` | jajadi-show-dimensions.php:95-105 | running the request filter again changes nothing |
| `ShowDimensions.Refreshed` | jajadi-show-dimensions.php:110-126 | after recomputing a list, whatever its order, every listed attachment has an entry equal to its area; all other entries are as before; an empty list changes nothing |
| `ShowDimensions.Purged` | jajadi-show-dimensions.php:131-146 | after deleting a list, exactly the listed attachments' entries are gone |
| `ShowDimensions.RefreshIdempotent` | jajadi-show-dimensions.php:110-126 | recomputing twice gives the same cache as recomputing once |
| `ShowDimensions.PurgeThenRefresh` | jajadi-show-dimensions.php:157-158 | deleting all entries before recomputing them gives the same cache as recomputing alone |
| `ShowDimensions.UpgradeSpec` | jajadi-show-dimensions.php:151-163 | when the gate opens, the cache equals a plain recompute of every attachment (deleting first makes no difference) and 1.3 is stored; otherwise nothing changes; afterwards, on the upload screen, the version is never below 1.3, so a second run changes nothing |
| `ShowDimensions.Upgraded` | jajadi-show-dimensions.php:151-163 | on the upload screen the stored version afterwards is never below 1.3; the cache is either unchanged or holds exactly the old entries plus one for every listed attachment |
| `ShowDimensions.Plugin.ColumnDisplay` | jajadi-show-dimensions.php:52-65 | for the Dimensions column of an image: refreshes that attachment's entry and yields its display text; otherwise yields nothing and changes nothing |
| `ShowDimensions.Plugin.UpdateMetadata` | jajadi-show-dimensions.php:110-126 | every listed attachment's entry holds its area; every other entry is untouched; the entries are exactly the old ones plus the listed ones |
| `ShowDimensions.Plugin.DeleteMetadata` | jajadi-show-dimensions.php:131-146 | the cache afterwards is the old cache minus the listed attachments' entries |
| `ShowDimensions.Plugin.CheckUpgrade` | jajadi-show-dimensions.php:151-163 | on the upload screen with a stored version (default `'0'`) below 1.3: deletes, recomputes, stores 1.3; otherwise a no-op |
| `ShowDimensions.Plugin.Activate` | jajadi-show-dimensions.php:168-170 | every attachment's area is cached |
| `ShowDimensions.Plugin.Deactivate` | jajadi-show-dimensions.php:175-178 | every attachment's entry and the version option are removed |

## Left out

- Hook registration (`add_action`, `add_filter`, the activation and deactivation hooks, the global instance) is left out: it only wires callbacks. `Plugin.constructor` only binds the state.
- `load_textdomain` and the `__()` translation are left out. The column title is an input of `ColumnRegister`.
- `get_posts`, `get_current_screen` and `wp_attachment_is_image` are inputs. The attachment list is a field of `Site`. "Current screen is upload" and "is an image" are boolean parameters.
- `is_admin` is left out: it only decides whether the constructor registers the hooks, and hook registration is left out.
- `wp_reset_postdata` is left out: after the loop it only restores the global post, and it touches neither the metadata nor the cache.
- `echo` and `esc_html` are left out. `ColumnDisplay` returns the text, and escaping leaves the digits and the `&times;` entity as they are.
- `version_compare` is modelled only on versions made of numeric parts. Pre-release tags (`rc`, `beta`, ...) and parsing the stored option string are not modelled; versions are sequences of numbers.
- Metadata values are integers. PHP's conversion of non-numeric strings by `intval`, and 64-bit overflow of the area into a float, are not modelled.
- Request and column values are strings. Non-string values, such as an array-valued `orderby`, are not modelled. Nor is `array_merge` renumbering integer keys.
- The post meta store keeps one value per attachment under the one key. Multiple values per key, and WordPress refusing writes to post id 0, are not modelled.
- Concurrent page loads that interleave a row refresh with the migration are not modelled; every operation runs to completion.
