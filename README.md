# alchemy_cloudinary in Dafny

A model of the two pieces of logic in the alchemy_cloudinary gem, which
stores AlchemyCMS pictures on Cloudinary. Properties of the model are proved.

1. **The Cloudinary transformation builder.** It turns a picture variant's
   options bag (`crop`, `crop_from`, `crop_size`, `size`, `upsample`,
   `secure`) into an ordered list of at most two entries: a crop entry
   centred on the crop rectangle, then a resize entry in mode `fill`, `fit`
   or `limit`. That list, with a secure flag, is handed to
   `image_file.remote_url`. The gem has three near-identical copies of the
   builder:
   - the storage adapter's `Dragonfly::CloudinaryUrl`;
   - the `Picture::CloudinaryUrl` class;
   - the older `Picture::CloudinaryUrl` module.

   Each copy is modelled with its own bodies. The two picture copies are
   proved to build the same list as the storage adapter's.
2. **The Dragonfly data store.** A uid is `"{public_id}.{format}"`.
   - `write` uploads the content's file with `{public_id: name(content.name)}`
     merged with the caller's options (the caller's keys win). It returns the
     uid built from the upload response.
   - `read` downloads the URL for `public_id(uid)` with `format: ext(uid)`, and
     returns the data with `{"name" => name(uid)}`.
   - `destroy` deletes `public_id(uid)`.
   - `url_for` returns the URL arguments for `public_id(uid)` with
     `{format: ext(uid)}` merged with the caller's options.

   The helpers `ext`, `public_id` and `name` are functions on strings.

Modules:

- `Wrappers`: `Option`.
- `RubyCore`: the Ruby and Rails behaviour the code relies on.
  - truthiness;
  - `blank?`/`present?` over Unicode white space;
  - `nil.to_s`;
  - `to_i`/`to_f` on leading digits;
  - `String#split` with a one-character pattern, which drops trailing empty fields;
  - `Array#join`;
  - parallel assignment from an array;
  - `Float#round`, which rounds halves away from zero.
- `TransformTypes`: the options bag and its entries.
  - the options bag;
  - the transformation entries;
  - the `remote_url` request record;
  - the integer reference for a crop centre, `(2·from + length + 1) / 2`.
- `StorageAdapterCloudinaryUrl`, `PictureCloudinaryUrl`, `PictureCloudinaryUrlMixin`: the three copies of the builder.
- `DragonflyDataStore`: the data store.

Each `call`/`url` entry point is a method on a class with an `options`
field. The `@options` assignment becomes an update of that field. The
method returns the `remote_url` request it would make. The data store is
a class whose `requests` field logs, in order, each upload, download and
destroy it asks of the Cloudinary client.

Behaviour of the code worth noting:

- **Blank `crop_from`.** Rails `present?` rejects a missing or empty
  `crop_from` and also one made only of white space.
- **Rounding.** Ruby's `Float#round` rounds halves away from zero, so an
  odd crop size puts the centre a half pixel further on.
- **Which key an operation uses.** `read`, `destroy` and `url_for` use
  `public_id(uid)`, which keeps underscores. The underscore-free `name` is
  used only for the public id sent with an upload and for the `"name"`
  entry of `read`'s metadata.
- **Three copies.** The three copies build the same list. They differ in
  where the secure flag comes from: always true, the call's parameters, or
  the options bag.

## Model

| member | source | states |
|---|---|---|
| StorageAdapterCloudinaryUrl.CropMode | app/models/alchemy/storage_adapter/dragonfly/cloudinary_url.rb:44-50 | the mode is one of fill/fit/limit; fill iff `crop` is truthy, fit iff not `crop` and `upsample`, limit iff neither |
| StorageAdapterCloudinaryUrl.CropCoordinates | app/models/alchemy/storage_adapter/dragonfly/cloudinary_url.rb:52-59 | splitting both strings on `x`, reading offsets with `to_i` and sizes with `to_f`, and rounding `offset + size / 2` gives the crop centre described by the leading numbers before and after the first `x`, a half pixel rounded up |
| StorageAdapterCloudinaryUrl.RoundedCentre | app/models/alchemy/storage_adapter/dragonfly/cloudinary_url.rb:56-57 | `(x.to_i + size_x.to_f / 2).round` of the `k`-th pieces is the integer centre of what `to_i` reads from them |
| StorageAdapterCloudinaryUrl.CentreOfSplit | app/models/alchemy/storage_adapter/dragonfly/cloudinary_url.rb:53-58 | the rounded sums computed from the split pieces equal the integer centre formula on each axis |
| StorageAdapterCloudinaryUrl.RoundedCentreOf | app/models/alchemy/storage_adapter/dragonfly/cloudinary_url.rb:56-57 | once the pieces read as `a` and `c`, `(a + c / 2.0).round` is the integer centre of `a` and `c` |
| StorageAdapterCloudinaryUrl.CropTransformation | app/models/alchemy/storage_adapter/dragonfly/cloudinary_url.rb:23-33 | a crop entry exists iff `crop` is truthy and `crop_from` is present; it has crop "crop", gravity "xy_center", the crop centre as x/y, and `crop_size` verbatim as size |
| StorageAdapterCloudinaryUrl.ResizeTransformation | app/models/alchemy/storage_adapter/dragonfly/cloudinary_url.rb:35-42 | a resize entry exists iff `size` is given; it carries `size` verbatim and the crop mode |
| StorageAdapterCloudinaryUrl.Transformations | app/models/alchemy/storage_adapter/dragonfly/cloudinary_url.rb:19-21 | the list holds one entry per present transformation; the crop entry, when present, is at index 0 and is the only crop entry; the resize entry, when present, is last; empty options give `[]` |
| StorageAdapterCloudinaryUrl.CropCoordinatesOfShown | app/models/alchemy/storage_adapter/dragonfly/cloudinary_url.rb:52-59 | for `crop_from = "{a}x{b}"` and `crop_size = "{c}x{d}"`, the centre is `((2a+c+1)/2, (2b+d+1)/2)` |
| StorageAdapterCloudinaryUrl.CropTransformationOfShown | app/models/alchemy/storage_adapter/dragonfly/cloudinary_url.rb:23-33 | with `crop` truthy and the rectangle written `"{a}x{b}"`/`"{c}x{d}"`, the crop entry is centred at the integer centre and carries `crop_size` |
| StorageAdapterCloudinaryUrl.CropCoordinatesExample1 | spec/models/alchemy/storage_adapter/dragonfly/cloudinary_url_spec.rb:100-107 | `10x20` with `100x80` gives (60, 60) |
| StorageAdapterCloudinaryUrl.CropCoordinatesExample2 | spec/models/alchemy/storage_adapter/dragonfly/cloudinary_url_spec.rb:109-116 | `0x0` with `50x50` gives (25, 25) |
| StorageAdapterCloudinaryUrl.CropCoordinatesExample3 | spec/models/alchemy/storage_adapter/dragonfly/cloudinary_url_spec.rb:118-125 | `10x10` with `99x99` gives (60, 60): the half pixel is rounded up |
| StorageAdapterCloudinaryUrl.CropCoordinatesExample4 | spec/models/alchemy/storage_adapter/dragonfly/cloudinary_url_spec.rb:175-194 | `100x200` with `300x400` gives the crop entry at (250, 400) with size `300x400` |
| StorageAdapterCloudinaryUrl.TransformationsExample | spec/models/alchemy/storage_adapter/dragonfly/cloudinary_url_spec.rb:263-287 | crop, `10x20`, `100x80` and size `300x200` give the crop entry at (60, 60) followed by a fill resize |
| StorageAdapterCloudinaryUrl.TransformationsExamples | spec/models/alchemy/storage_adapter/dragonfly/cloudinary_url_spec.rb:11-90 | no options give `[]`; size alone gives a limit resize; size with upsample gives a fit resize; crop without `crop_from`, or with `crop_from = ""`, gives only a fill resize |
| StorageAdapterCloudinaryUrl.CropTransformationNilExamples | spec/models/alchemy/storage_adapter/dragonfly/cloudinary_url_spec.rb:196-210 | without `crop`, or with `crop` but no `crop_from`, there is no crop entry; without `crop` or `size` the list is empty |
| StorageAdapterCloudinaryUrl.CloudinaryUrl.Call | app/models/alchemy/storage_adapter/dragonfly/cloudinary_url.rb:6-13 | stores the options and requests the remote URL with the options' transformation list, always secure |
| PictureCloudinaryUrl.CropMode | app/models/alchemy/picture/cloudinary_url.rb:45-51 | equals the storage adapter's crop mode for every options bag |
| PictureCloudinaryUrl.CropCoordinates | app/models/alchemy/picture/cloudinary_url.rb:53-60 | equals the storage adapter's crop centre for every options bag |
| PictureCloudinaryUrl.CropTransformation | app/models/alchemy/picture/cloudinary_url.rb:24-34 | equals the storage adapter's crop entry for every options bag |
| PictureCloudinaryUrl.ResizeTransformation | app/models/alchemy/picture/cloudinary_url.rb:36-43 | equals the storage adapter's resize entry for every options bag |
| PictureCloudinaryUrl.Transformations | app/models/alchemy/picture/cloudinary_url.rb:20-22 | equals the storage adapter's list for every options bag; with two entries, crop comes before resize |
| PictureCloudinaryUrl.CloudinaryUrl.Call | app/models/alchemy/picture/cloudinary_url.rb:8-14 | stores the variant's options; the transformation list depends on those options alone, and the secure flag is the truthiness of `params[:secure]` |
| PictureCloudinaryUrlMixin.CropCoordinates | lib/alchemy/picture/cloudinary_url.rb:38-45 | equals the storage adapter's crop centre for every options bag |
| PictureCloudinaryUrlMixin.CropTransformation | lib/alchemy/picture/cloudinary_url.rb:16-26 | equals the storage adapter's crop entry for every options bag |
| PictureCloudinaryUrlMixin.ResizeTransformation | lib/alchemy/picture/cloudinary_url.rb:28-36 | the inline crop mode gives the storage adapter's resize entry; its mode is one of fill/fit/limit |
| PictureCloudinaryUrlMixin.Transformations | lib/alchemy/picture/cloudinary_url.rb:12-14 | equals the storage adapter's list for every options bag; with two entries, crop comes before resize |
| PictureCloudinaryUrlMixin.Picture.Url | lib/alchemy/picture/cloudinary_url.rb:5-8 | stores the options; the transformation list and the secure flag (`!!options[:secure]`) both come from the same options bag |
| TransformTypes.Compact | app/models/alchemy/storage_adapter/dragonfly/cloudinary_url.rb:20 | `compact` is no longer than its input; a present first entry stays first and a present last entry stays last |
| TransformTypes.CompactAppend | app/models/alchemy/storage_adapter/dragonfly/cloudinary_url.rb:20 | `compact` of a concatenation is the concatenation of the compacted parts, by induction |
| TransformTypes.CompactSingleton | app/models/alchemy/storage_adapter/dragonfly/cloudinary_url.rb:20 | `compact` keeps a present entry and drops `nil`; with `CompactAppend` this fixes `compact` on every list |
| TransformTypes.WantsCrop | app/models/alchemy/storage_adapter/dragonfly/cloudinary_url.rb:24 | a crop is wanted only with `crop` true and a non-empty `crop_from`; with `crop` true a `crop_from` starting with a digit always qualifies |
| TransformTypes.CropCentre | app/models/alchemy/storage_adapter/dragonfly/cloudinary_url.rb:52-59 | on each axis twice the centre is `2·offset + size` or one more, from the leading numbers of `crop_from` and `crop_size`; with neither given the centre is (0, 0) |
| TransformTypes.CentreCoordinate | app/models/alchemy/storage_adapter/dragonfly/cloudinary_url.rb:56-57 | twice the centre is `2·from + length`, or one more when the length is odd |
| TransformTypes.ComponentsOfShow | app/models/alchemy/storage_adapter/dragonfly/cloudinary_url.rb:53-54 | the numbers before and after the `x` of `"{a}x{b}"` read back as `a` and `b` |
| RubyCore.LeadingDigits | app/models/alchemy/storage_adapter/dragonfly/cloudinary_url.rb:56-57 | the digits `to_i` reads are a prefix of the string, all digits, and end at the first non-digit |
| RubyCore.LeadingDigitsUnique | app/models/alchemy/storage_adapter/dragonfly/cloudinary_url.rb:56-57 | any all-digit prefix ending at a non-digit or at the end is exactly what `to_i` reads |
| RubyCore.ToIShow | app/models/alchemy/storage_adapter/dragonfly/cloudinary_url.rb:56-57 | `to_i` of a number's decimal notation, followed by a non-digit or nothing, is the number |
| RubyCore.DigitsValueShow | app/models/alchemy/storage_adapter/dragonfly/cloudinary_url.rb:56-57 | reading back a number's decimal notation gives the number |
| RubyCore.Fields | app/models/alchemy/storage_adapter/dragonfly/cloudinary_url.rb:53-54 | the fields between separators contain no separator; the first field is a prefix ending at the first separator or at the end |
| RubyCore.DropTrailingEmpty | app/models/alchemy/storage_adapter/dragonfly/cloudinary_url.rb:53-54 | `split` keeps a prefix of the fields whose last element is non-empty and drops only empty fields |
| RubyCore.SplitLeadingNumbers | app/models/alchemy/storage_adapter/dragonfly/cloudinary_url.rb:53-57 | `x, y = s.split("x")` then `to_i` reads the leading number of `s` and the leading number after its first `x`, 0 when there is none |
| RubyCore.NthDropTrailingEmpty | app/models/alchemy/storage_adapter/dragonfly/cloudinary_url.rb:53-57 | dropping trailing empty fields never changes what `to_i` reads from a position, `nil` included |
| RubyCore.RoundHalfSum | app/models/alchemy/storage_adapter/dragonfly/cloudinary_url.rb:56-57 | `(a + c / 2.0).round` is `(2a + c + 1) / 2` |
| RubyCore.NilToFIsNilToI | app/models/alchemy/storage_adapter/dragonfly/cloudinary_url.rb:56-57 | `to_f` and `to_i` agree, `nil` included; this holds by the `ToF` abstraction, which reads leading digits only |
| RubyCore.OrElse | lib/alchemy_cloudinary/dragonfly_data_store.rb:15 | Ruby's logical or of a string or `nil` with a fallback string: a string `a` is the result, `b` only when `a` is `nil` |
| RubyCore.NilToI | app/models/alchemy/storage_adapter/dragonfly/cloudinary_url.rb:56-57 | `nil.to_i` is 0; on a string it is that string's `to_i` |
| RubyCore.NilToF | app/models/alchemy/storage_adapter/dragonfly/cloudinary_url.rb:56-57 | `nil.to_f` is 0.0; on a string it is that string's `to_f` |
| RubyCore.IsSpace | app/models/alchemy/storage_adapter/dragonfly/cloudinary_url.rb:24 | space, tab, newline and carriage return are white space; digits and `x` are not |
| RubyCore.Blank | app/models/alchemy/storage_adapter/dragonfly/cloudinary_url.rb:24 | `""` is blank, a string starting with a non-space character is not, and a blank string is white space throughout |
| RubyCore.Truthy | app/models/alchemy/storage_adapter/dragonfly/cloudinary_url.rb:24 | a flag is truthy unless it is `nil` or `false` |
| RubyCore.Present | app/models/alchemy/storage_adapter/dragonfly/cloudinary_url.rb:24 | a value is present iff it is a string holding some character that is not white space; `""` is not present |
| RubyCore.ToS | app/models/alchemy/storage_adapter/dragonfly/cloudinary_url.rb:53-54 | a string is its own `to_s`; `nil.to_s` is `""`, whose `to_i` is 0 |
| RubyCore.Nth | app/models/alchemy/storage_adapter/dragonfly/cloudinary_url.rb:53-54 | parallel assignment gives element `k` when it exists and `nil` exactly when the array is shorter |
| RubyCore.ToI | app/models/alchemy/storage_adapter/dragonfly/cloudinary_url.rb:56-57 | `to_i` is 0 when the string does not start with a digit, and the digit's value when a single digit leads |
| RubyCore.ToF | app/models/alchemy/storage_adapter/dragonfly/cloudinary_url.rb:56-57 | `to_f` is non-negative and is the number `to_i` reads, as a real |
| RubyCore.RubyRound | app/models/alchemy/storage_adapter/dragonfly/cloudinary_url.rb:56-57 | `Float#round` is the nearest integer, within half of the value; an exact half goes away from zero |
| RubyCore.Split | app/models/alchemy/storage_adapter/dragonfly/cloudinary_url.rb:53-54 | no field holds the separator and the last field is never empty (trailing empty fields are dropped); `JoinSplit` adds that joining the fields deletes exactly the separators |
| RubyCore.Join | lib/alchemy_cloudinary/dragonfly_data_store.rb:37 | the first part is a prefix of the join, every part fits inside it, and a non-empty part makes it non-empty |
| RubyCore.JoinSplit | lib/alchemy_cloudinary/dragonfly_data_store.rb:37 | `s.split('_').join` deletes every `_` from `s` and keeps everything else in order |
| RubyCore.JoinFields | lib/alchemy_cloudinary/dragonfly_data_store.rb:37 | joining the fields between separators deletes exactly the separators |
| RubyCore.JoinDropTrailingEmpty | lib/alchemy_cloudinary/dragonfly_data_store.rb:37 | dropping trailing empty fields does not change the join |
| RubyCore.RemoveAppend | lib/alchemy_cloudinary/dragonfly_data_store.rb:37 | deleting a character distributes over concatenation |
| RubyCore.RemoveRemoves | lib/alchemy_cloudinary/dragonfly_data_store.rb:37 | after deletion the character no longer occurs |
| RubyCore.RemoveAbsent | lib/alchemy_cloudinary/dragonfly_data_store.rb:38-40 | deleting a character that does not occur changes nothing |
| DragonflyDataStore.LeadingDots | lib/alchemy_cloudinary/dragonfly_data_store.rb:44 | the number of leading dots `File.extname` skips: all of the first `r` characters are dots, and the next one, if any, is not |
| DragonflyDataStore.ExtName | lib/alchemy_cloudinary/dragonfly_data_store.rb:44 | `File.extname` is empty iff no dot follows the leading dots; otherwise it is a proper suffix that starts with its only dot and is preceded by something other than dots alone |
| DragonflyDataStore.Ext | lib/alchemy_cloudinary/dragonfly_data_store.rb:43-47 | with the dot it is `File.extname`; without it, the extension less its dot, never containing a dot, and `""` when there is no extension |
| DragonflyDataStore.Basename | lib/alchemy_cloudinary/dragonfly_data_store.rb:31 | the suffix is removed exactly when it is non-empty, shorter than the name and ends it; otherwise the name is unchanged |
| DragonflyDataStore.PublicId | lib/alchemy_cloudinary/dragonfly_data_store.rb:30-32 | the public id followed by the dotted extension is the uid; an extensionless uid is its own public id |
| DragonflyDataStore.Name | lib/alchemy_cloudinary/dragonfly_data_store.rb:34-41 | the name is the public id with every `_` deleted; it contains no `_`; it is the public id itself when that has none |
| DragonflyDataStore.Merge | lib/alchemy_cloudinary/dragonfly_data_store.rb:8-10 | `Hash#merge` has the keys of both hashes; the overriding hash's values win and the other keys keep their defaults |
| DragonflyDataStore.UploadOptions | lib/alchemy_cloudinary/dragonfly_data_store.rb:8-10 | the upload options have the caller's keys plus `public_id`; every caller value passes through unchanged, and without a caller `public_id` it is the name of the content's name |
| DragonflyDataStore.ReadUrl | lib/alchemy_cloudinary/dragonfly_data_store.rb:15 | `read` asks for the uid's public id with the single option `format = ext(uid)`, which is `""` and never `"jpg"` for an extensionless uid |
| DragonflyDataStore.UrlOptions | lib/alchemy_cloudinary/dragonfly_data_store.rb:24 | `url_for` options have the caller's keys plus `format`; caller values win, and without a caller `format` it is `ext(uid)` |
| DragonflyDataStore.ExtNameAt | lib/alchemy_cloudinary/dragonfly_data_store.rb:44 | a dot with no dot after it and a non-dot before it starts the extension |
| DragonflyDataStore.StoredUid | lib/alchemy_cloudinary/dragonfly_data_store.rb:11 | for a response whose format has no dot, whose public id is not only dots, and with no `/` in either, `public_id` and `ext` of the returned uid give back that public id and format |
| DragonflyDataStore.StoredIdRoundTrip | lib/alchemy_cloudinary/dragonfly_data_store.rb:30-47 | for `"{p}.{f}"`, with `f` free of dots, `p` not only dots and no `/` in either, the public id is `p` and the extension is `f` (`"." + f` with the dot) |
| DragonflyDataStore.WrittenUidRoundTrip | lib/alchemy_cloudinary/dragonfly_data_store.rb:11-26 | for the uid `write` returns, when the response's format has no `.`, its public id is not made of dots alone (the empty string included), and neither holds a `/`, `read`, `destroy` and `url_for` recover the uploaded public id and format, and `name` is that public id without underscores |
| DragonflyDataStore.NameOfPieces | lib/alchemy_cloudinary/dragonfly_data_store.rb:30-41 | for `"{a}_{b}_{c}.{f}"` where `a`, `b` and `c` hold no `_`, `f` holds no `.`, `a` is non-empty and does not start with `.`, and no piece holds a `/`, the public id keeps the underscores, the extension is `f`, and the name is `abc` |
| DragonflyDataStore.NameExample | spec/lib/alchemy_cloudinary/dragonfly_data_store_spec.rb:132-148 | `my_test_image.png` has public id `my_test_image`, extension `png` and name `mytestimage` |
| DragonflyDataStore.ExtensionlessExample | spec/lib/alchemy_cloudinary/dragonfly_data_store_spec.rb:65-72 | `test_image` has no extension, is its own public id, and is read with format `""` |
| DragonflyDataStore.DataStore.Write | lib/alchemy_cloudinary/dragonfly_data_store.rb:7-12 | logs one upload of the content's file with the merged upload options, and returns the stored uid of the upload response |
| DragonflyDataStore.DataStore.Read | lib/alchemy_cloudinary/dragonfly_data_store.rb:14-17 | logs one download of the read URL, and returns the downloaded data with `{"name" => name(uid)}` |
| DragonflyDataStore.DataStore.Destroy | lib/alchemy_cloudinary/dragonfly_data_store.rb:19-21 | logs one deletion of exactly `public_id(uid)` |
| DragonflyDataStore.DataStore.UrlFor | lib/alchemy_cloudinary/dragonfly_data_store.rb:23-26 | asks for the uid's public id with the merged `url_for` options, and logs nothing |

## Left out

- The Cloudinary client is not modelled. That covers:
  - `Cloudinary::Uploader.upload` and `destroy`;
  - `Cloudinary::Utils.cloudinary_url`;
  - `Cloudinary::Downloader.download`;
  - `image_file.remote_url`.

  These are network calls into a library outside this model. Each is represented by the request it receives. Its answer, where the code reads it (the upload response, the downloaded data), is a parameter.
- The URL strings Cloudinary composes are not modelled. `url_for` returns the arguments it would pass instead.
- Cloudinary's response to a destroy is not modelled. `destroy` returns it, and nothing in the code reads it.
- `DragonflyDataStore.DataStore`: the Ruby class has no state. Its `requests` log stands in for the client calls, so that the methods can state what they send.
- `DragonflyDataStore.Ext`: the in-place `ext[0] = ''` works on the fresh string `File.extname` returns. It is modelled as a function returning that string without its first character. No other reference to the string exists for aliasing to matter.
- `DragonflyDataStore.ExtName`: `File.extname` is modelled for names without directory separators. It follows the rules of Ruby 2.7 and later on non-Windows systems: leading dots are skipped and a trailing dot yields `"."`. A `/` is treated as an ordinary character, so uids with folders are not modelled. Versions of Ruby before 2.7 are not modelled either; there a trailing dot yields `""`.
- `DragonflyDataStore.Basename`: `File.basename` is modelled for names without directory separators. Its `".*"` wildcard suffix is not modelled; for the suffixes `public_id` passes, it strips what a literal suffix would.
- Errors are not modelled. Exceptions that the Cloudinary client raises in `write`, `read` and `destroy` propagate unchanged in the source. The model's `Write`, `Read` and `Destroy` always return; `Write` returns the stored uid of the given response even where the upload would have raised. `Content.name` is a string, so the case where Dragonfly passes a `nil` name cannot arise. In the source, `name(nil)` reaches `File.extname(nil)` and raises `TypeError`.
- Uids with folders. `public_id` and `ext` go through `File.basename` and `File.extname` (lib/alchemy_cloudinary/dragonfly_data_store.rb:31, 44), which drop everything up to the last `/`. So when `write` uploads under a public id such as `"uploads/image"` (a caller `public_id` wins the merge, and a `folder:` option has the same effect), the source's `read`, `destroy` and `url_for` address `"image"`, not the object that was uploaded. The round-trip lemmas below therefore exclude `/`.
- `DragonflyDataStore.StoredUid`: its round trip is promised only for a public id and format without `/`.
- `DragonflyDataStore.StoredIdRoundTrip`: requires no `/` in `p` or `f`, because the source drops the folder there.
- `DragonflyDataStore.WrittenUidRoundTrip`: requires a format without `.`, a public id not made of dots alone (the empty string included), and no `/` in either. Outside that domain the source does not round-trip. A `/` makes it drop the folder. A dot in the format moves the extension: `"a.b.c"` has extension `c`. A public id of dots alone hides the extension: public id `".."` with format `"jpg"` gives the uid `"...jpg"`, whose `File.extname` is `""`.
- `DragonflyDataStore.NameOfPieces`: requires `a`, `b` and `c` without `_`, `f` without `.`, a non-empty `a` that does not start with `.`, and no `/` in any piece. Outside that domain the result differs. A `/` drops everything before it. A dot in `f` moves the extension: `"a_b_c.x.y"` has extension `y`. An `_` inside a piece changes which underscores the name loses.
- `RubyCore.ToI`: `String#to_i` is modelled on leading decimal digits only. Leading white space, signs and `_` digit separators are not modelled, so negative crop offsets are out of scope.
- `RubyCore.ToF`: `String#to_f` reads the leading digits only. A fractional `crop_size` such as `"99.5"` reads as `99.0`, not `99.5`, and an exponent is not read, so `"1e3"` reads as `1.0` where Ruby gives `1000.0`. The model does not cover fractional crop sizes.
- `RubyCore.RubyRound`: the Float arithmetic of `crop_coordinates` is modelled on exact reals. Ruby's IEEE doubles round differently once offsets or sizes pass 2^53. A `crop_size` of more than about 308 digits makes `to_f` return `Infinity`, and then `round` raises `FloatDomainError`; the model returns a number there.
- The options bag holds booleans for `crop`, `upsample` and `secure`, and strings for `crop_from`, `crop_size` and `size`. Other Ruby values are not modelled: truthy strings or numbers, or non-string values converted with `to_s`.
- Option-hash values are limited to strings, integers and booleans. Symbol and string keys are both written as their names.
- These parts of the surrounding code are not part of this model:
  - the superclasses `Url` and `Dragonfly::PictureUrl`;
  - the `variant.instance_variable_get(:@options)` reflection, which becomes the variant's options passed to the constructor;
  - the `picture.image_file` delegation;
  - the Rails engine configuration.
- The no-op thumbnail classes (`StorePictureThumb`, `CreatePictureThumb`) are not modelled; they have no behaviour.
