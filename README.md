# three.js viewer: OBJ merging, MTL reading and writing, page escaping, texture decisions

A Dafny model of the text and arithmetic core of the three.js viewer generator. That generator turns Wavefront OBJ/MTL models and their textures into one self-contained HTML page.

The model covers four parts:

- **OBJ merge** (`obj_parser.dfy`, `obj_session.dfy`).
  - Several OBJ files are merged into one text. In each `f` line, every `v`, `vt` and `vn` index is shifted by the number of such lines in all earlier files.
  - `v`, `vt`, `vn` and all other command lines pass through unchanged.
  - `mtllib` lines are deduplicated.
  - The library names (`mtllib`) and material names (`usemtl`) are collected, and line statistics are accumulated.
  - `OBJParser` is a class whose methods update its sets and statistics. Each method is proved against a specification function (`ParseFilesSpec`, `AnalyzeContent`, ...).
- **MTL reader and writer** (`mtl_parser.dfy`).
  - `parse_string` is a state machine over the lines. It has a current material and a table from names to materials that keeps insertion order.
  - Options in texture arguments are skipped, and texture references are rewritten through a mapping.
  - `to_mtl_string` serialises the table in a fixed keyword order. The model proves that reading back what was written gives the table again.
  - `MTLParser` is a class with `order`/`materials` fields.
- **Page generation** (`html_generator.dfy`).
  - The three-pass JavaScript template-literal escape and the five-pass HTML escape are each proved equal to a single-pass escape. Both are proved safe. The HTML escape is proved to read back as the original text; the JavaScript one reads back as the original text with its line endings normalised, as a template literal reads `\r\n` and `\r` as `\n`.
  - Placeholders are replaced in order: `{{OBJ_DATA}}`, then `{{MTL_DATA}}`, then `{{TEXTURE_DATA}}` (or `{{PLY_DATA}}`). The default `<title>` element is replaced when a title is given.
- **Texture decisions** (`texture_processor.dfy`, `base64.dfy`).
  - The supported-suffix check, the downscale size arithmetic, and the format/MIME/quality table.
  - The `data:<mime>;base64,<payload>` URI, with a base64 encoder; the decoder is proved to undo the encoder (`Base64.RoundTrip`).
  - The per-processor totals. `TextureProcessor` is a class whose `stats` field is updated by `ProcessTexture` and `ProcessTexturesBatch`.

Shared modules model the Python built-ins the source relies on:

- `Text`: `str.strip`, `str.split()`, `split(maxsplit=1)`, `split('/')`, `str.replace`, `str.join`, `str.splitlines`, ASCII `lower`, and `int()`/`str()` on decimal integers.
- `LineSyntax`: the strip / skip blank and `#` lines / split command from arguments discipline shared by the OBJ and MTL readers.
- `Seqs`: generic folds.
- `Wrappers`: `Option`/`Result`.

File contents are given as strings or sequences of lines. `float()` and `str()` of floats are parameters (`FloatParser`, `FloatWriter`), and so is the image library's encoder (`Encoder`).

The code was followed where its documentation says otherwise:

- A negative (relative) face index also gets the offset added. Signs are not checked (`AdjustVertexOk`).
- Library and material names recorded before a face index that `int()` refuses stay recorded. The statistics are then left as they were (`ParseFilesOutcome`).
- The `mtllib` duplicate test looks for `mtllib <args>`, but the line kept is the stripped line as written. So a differently spelt line such as `MTLLIB m.mtl` is kept every time it occurs (`NonCanonicalLibKept`).
- A `.bmp` texture is written as JPEG and reported `converted`, but `converted_count` counts only conversions to WebP (`ConvertedNotCounted`).
- `max_resolution` is tested for truth, so `0` behaves like `None`, while a negative maximum is exceeded by every texture. The image library then refuses the negative size, so each supported texture fails after its file size was added to `total_original_size` (`NegativeMaxFails`).

## Model

| member | source | states |
|---|---|---|
| ObjParser.AdjustFaceIndices | _three.js-viewer/src/modules/obj_parser.py:181-218 | the vertex loop of `_adjust_face_indices` returns exactly `AdjustFace` of the face and the three offsets: the rewritten face, or `InvalidFaceIndex` when `int()` refuses a component |
| ObjParser.AdjustVertexIndices | _three.js-viewer/src/modules/obj_parser.py:201-216 | one vertex token, rewritten component by component, equals `AdjustVertex` |
| ObjParser.AdjustComponent | _three.js-viewer/src/modules/obj_parser.py:204-214 | one component: unchanged when absent or empty, otherwise `str(int(c) + offset)` or an error |
| ObjParser.AdjustVertexErr | _three.js-viewer/src/modules/obj_parser.py:202-214 | a vertex token fails exactly when one of its first three non-empty components is not an integer |
| ObjParser.AdjustPartsShape | _three.js-viewer/src/modules/obj_parser.py:204-214 | the component list keeps its length; components 0, 1 and 2 are shifted by the v, vt and vn offsets (empty ones stay empty); later components are untouched |
| ObjParser.AdjustVertexOk | _three.js-viewer/src/modules/obj_parser.py:202-216 | the rewritten token has the same slash structure; component k holds int(component k) plus the offset for k (negative indices included); components past the third are copied |
| ObjParser.AdjustFaceSpec | _three.js-viewer/src/modules/obj_parser.py:198-218 | a face fails iff one of its tokens fails; otherwise it has as many tokens as the input, token k being the rewrite of input token k, with no surrounding whitespace |
| ObjParser.AdjustVertexZero | _three.js-viewer/src/modules/obj_parser.py:204-214 | with zero offsets, a token whose indices are canonical decimals is returned unchanged |
| ObjParser.AdjustFaceZero | _three.js-viewer/src/modules/obj_parser.py:186-187 | with zero offsets and canonical indices, a single-spaced face is returned unchanged |
| ObjParser.MergeFilesPosition | _three.js-viewer/src/modules/obj_parser.py:84-173 | the offsets in force for file k are the sums of the v/vt/vn counts of files 0..k-1, and zero for the first file |
| ObjParser.TotalCountsNext | _three.js-viewer/src/modules/obj_parser.py:170-173 | after file k the offsets advance by exactly that file's first-pass counts |
| ObjParser.TotalCountsMonotone | _three.js-viewer/src/modules/obj_parser.py:170-173 | the offsets never decrease from one file to a later one |
| ObjParser.MergeFilesFaces | _three.js-viewer/src/modules/obj_parser.py:148-152 | the merge succeeds iff every face of every file is accepted; the `f` lines of the output are then the faces of every file, in order, each shifted by its file's offsets |
| ObjParser.MergeFilesKeeps | _three.js-viewer/src/modules/obj_parser.py:143-168 | every command other than `f` and `mtllib` (`v`, `vt`, `vn`, `usemtl`, ...) reaches the output once per input line, stripped and in order |
| ObjParser.MergeFilesRecord | _three.js-viewer/src/modules/obj_parser.py:155-164 | the library and material names recorded are exactly the arguments of the `mtllib` / `usemtl` lines of all files |
| ObjParser.MergeLineLib | _three.js-viewer/src/modules/obj_parser.py:155-159 | an `mtllib` line records its argument and is appended only when `mtllib <args>` is not already among the merged lines |
| ObjParser.MergeFilesUnique | _three.js-viewer/src/modules/obj_parser.py:155-159 | the output never holds the same canonical `mtllib` line twice |
| ObjParser.NonCanonicalLibKept | _three.js-viewer/src/modules/obj_parser.py:158-159 | two `MTLLIB m.mtl` lines are both kept, since the duplicate test looks for the lower-case spelling |
| ObjParser.AnalyzeLinesCounts | _three.js-viewer/src/modules/obj_parser.py:233-244 | each counter grows by the number of lines of its command, never reset |
| ObjParser.AnalyzeLinesNames | _three.js-viewer/src/modules/obj_parser.py:245-248 | the library and material name sets grow by the arguments of the `mtllib` / `usemtl` lines |
| ObjParser.AnalyzeLinesStats | _three.js-viewer/src/modules/obj_parser.py:220-244 | the statistics after analysing lines are the old ones plus the count of `v`, `vn`, `vt`, `f`, `g`, `o` lines; `files_merged` is untouched |
| ObjParser.AnalyzeLinesSpec | _three.js-viewer/src/modules/obj_parser.py:220-248 | the whole analysis state after a list of lines, counters and name sets together |
| ObjParser.AnalyzeLinesFiles | _three.js-viewer/src/modules/obj_parser.py:220-248 | analysing content leaves `files_merged` alone |
| ObjSession.ParseFilesOutcome | _three.js-viewer/src/modules/obj_parser.py:80-81 | an empty list fails with `NoObjFiles` and changes nothing; otherwise the merge succeeds iff every face is accepted; on failure the statistics are unchanged and the name sets only grow |
| ObjSession.ParseFilesAnalyzed | _three.js-viewer/src/modules/obj_parser.py:175-177 | after a successful merge of files whose lines and names hold no `splitlines()` boundary, the state is the analysis of the merged lines with `files_merged` set to the number of files |
| ObjSession.ParseFilesStats | _three.js-viewer/src/modules/obj_parser.py:175-177 | after a successful merge the statistics are the old ones plus the counts over the lines of all files, with `files_merged` the number of files |
| ObjSession.ParseFilesNames | _three.js-viewer/src/modules/obj_parser.py:155-177 | after a successful merge the name sets are the old ones plus the `mtllib` / `usemtl` arguments of all files |
| ObjSession.MergeFilesGrowNames | _three.js-viewer/src/modules/obj_parser.py:155-164 | merging only adds library and material names |
| ObjSession.MergeLinesStopped | _three.js-viewer/src/modules/obj_parser.py:148-152 | once a face is refused, the remaining lines of the file change nothing |
| ObjSession.MergeFilesStopped | _three.js-viewer/src/modules/obj_parser.py:148-152 | once a face is refused, the remaining files change nothing |
| ObjSession.ParseFileStats | _three.js-viewer/src/modules/obj_parser.py:40-62 | parsing one file adds its line counts and names and sets `files_merged` to 1 |
| ObjSession.CountFileLines | _three.js-viewer/src/modules/obj_parser.py:100-117 | the first-pass loop returns the file's numbers of `v`, `vt` and `vn` lines |
| ObjSession.OBJParser.constructor | _three.js-viewer/src/modules/obj_parser.py:26-38 | a new parser has zero statistics and no names |
| ObjSession.OBJParser.AnalyzeObjContent | _three.js-viewer/src/modules/obj_parser.py:220-248 | the fields after the line loop are the analysis of the content from the old fields |
| ObjSession.OBJParser.ParseFile | _three.js-viewer/src/modules/obj_parser.py:40-62 | returns the content unchanged and updates the fields as `ParseFileSpec` says |
| ObjSession.OBJParser.MergeLineInto | _three.js-viewer/src/modules/obj_parser.py:120-168 | one line of the second pass: the merged lines and name fields after it are those of `MergeLine`; the statistics do not change |
| ObjSession.OBJParser.MergeFileLines | _three.js-viewer/src/modules/obj_parser.py:120-168 | the second-pass loop over one file equals `MergeLines` |
| ObjSession.OBJParser.ParseFiles | _three.js-viewer/src/modules/obj_parser.py:64-179 | the result and the new fields are exactly `ParseFilesSpec` of the old fields and the files |
| ObjSession.OBJParser.GetMtlReferences | _three.js-viewer/src/modules/obj_parser.py:250-252 | returns the library names |
| ObjSession.OBJParser.GetMaterialUsage | _three.js-viewer/src/modules/obj_parser.py:254-256 | returns the material names |
| ObjSession.OBJParser.GetStats | _three.js-viewer/src/modules/obj_parser.py:258-260 | returns the statistics |
| LineSyntax.Classify | _three.js-viewer/src/modules/obj_parser.py:121-136 | a line is blank iff it strips to nothing; a comment is the stripped line starting with '#'; a command's keyword is the lower-cased first word of `split(maxsplit=1)` of the stripped line, non-empty, without whitespace and unchanged by lowering again, and its arguments are the second part (stripped) or `''` |
| Text.SplitOnceHead | _three.js-viewer/src/modules/obj_parser.py:131 | the first part of `split(maxsplit=1)` is the leading word: only whitespace before it, no whitespace in it, whitespace or the end after it |
| Text.LeadingWordUnique | _three.js-viewer/src/modules/obj_parser.py:131 | a string has at most one leading word, so that first part is determined by the line |
| Text.LowerIdempotent | _three.js-viewer/src/modules/obj_parser.py:135 | `lower()` of a lower-cased keyword changes nothing |
| LineSyntax.ClassifyStatement | _three.js-viewer/src/modules/mtl_parser.py:173-178 | a written line `kw args` reads back as command `lower(kw)` with arguments `args` |
| Text.ParseIntToString | _three.js-viewer/src/modules/obj_parser.py:206 | `int(str(n)) == n`, the round trip behind rewritten indices |
| Text.JoinSplitOn | _three.js-viewer/src/modules/obj_parser.py:202-216 | splitting a vertex token on '/' and joining with '/' gives the token back |
| MtlParser.TexturePaths | _three.js-viewer/src/modules/mtl_parser.py:44-52 | x is a texture path of a material iff some texture attribute holds x and x is not empty |
| MtlParser.MaterialTexturePaths | _three.js-viewer/src/modules/mtl_parser.py:44-52 | the attribute loop of `get_texture_paths` returns `TexturePaths` |
| MtlParser.AllTexturePathsSpec | _three.js-viewer/src/modules/mtl_parser.py:224-229 | for a well-formed table, x is among all texture paths iff the material under some name of the table's order has x among its texture paths |
| MtlParser.AllTexturePathsPut | _three.js-viewer/src/modules/mtl_parser.py:180-183 | after storing a material under a name, the texture paths are the new material's and those of every other entry; the replaced entry's paths are gone |
| MtlParser.Put | _three.js-viewer/src/modules/mtl_parser.py:183 | storing a material under a name keeps the table well formed and a replaced name keeps its place |
| MtlParser.ParseColorFirstThree | _three.js-viewer/src/modules/mtl_parser.py:293-297 | with three words or more, the colour depends only on the first three words; the rest is ignored |
| MtlParser.ParseColorText | _three.js-viewer/src/modules/mtl_parser.py:293-297 | a colour written as its three floats separated by spaces reads back as that colour, when each float reads back |
| MtlParser.LastPlain | _three.js-viewer/src/modules/mtl_parser.py:306-310 | finds the last word not starting with '-'; none iff every word is an option |
| MtlParser.ParseTexturePathScan | _three.js-viewer/src/modules/mtl_parser.py:300-312 | the backwards loop returns the last non-option word with '\\' turned into '/', or the stripped arguments |
| MtlParser.SetValue | _three.js-viewer/src/modules/mtl_parser.py:188-203 | a value command fails exactly when its colour, float or integer does not parse; otherwise `ka`/`kd`/`ks` set the ambient/diffuse/specular colour to the parsed colour, `ns`/`d`/`tr`/`ni` set shininess/opacity/transparency/optical density to `float(args)`, `illum` sets illumination to `int(args)`, and every other attribute, the name and the textures stay |
| MtlParser.SetTexture | _three.js-viewer/src/modules/mtl_parser.py:204-217 | a texture command sets its own attribute to the parsed path and leaves every other attribute alone |
| MtlParser.SetProperty | _three.js-viewer/src/modules/mtl_parser.py:188-217 | only value commands fail; unknown commands change nothing; the name is kept |
| MtlParser.ParseMtlValid | _three.js-viewer/src/modules/mtl_parser.py:163-222 | the table read has each name once and stores each material under its own name |
| MtlParser.ReadBeforeNewmtl | _three.js-viewer/src/modules/mtl_parser.py:185-186 | lines before the first `newmtl` leave the empty table and no current material |
| MtlParser.ReadNewmtl | _three.js-viewer/src/modules/mtl_parser.py:180-183 | `newmtl X` installs a fresh default material under X as current, replacing an earlier X in its place |
| MtlParser.ReadOnlyCurrent | _three.js-viewer/src/modules/mtl_parser.py:188-217 | any other line changes only the current material: order, keys and other materials are unchanged |
| MtlParser.ReadFailureSkips | _three.js-viewer/src/modules/mtl_parser.py:219-220 | a line whose value does not parse leaves the whole state unchanged |
| MtlParser.ReadIgnoresCase | _three.js-viewer/src/modules/mtl_parser.py:177 | two keywords with the same lower case read the same |
| MtlParser.BumpIsMapBump | _three.js-viewer/src/modules/mtl_parser.py:212-213 | `bump` and `map_bump` set the same attribute to the same value |
| MtlParser.RemapMaterialSpec | _three.js-viewer/src/modules/mtl_parser.py:239-243 | each texture attribute is replaced by its mapping when it is non-empty and a key; the other attributes are unchanged |
| MtlParser.RewriteMaterial | _three.js-viewer/src/modules/mtl_parser.py:239-243 | the `setattr` loop over one material returns `RemapMaterial` |
| MtlParser.RemapTable | _three.js-viewer/src/modules/mtl_parser.py:238-243 | rewriting keeps the order, the keys, and the well-formedness of the table |
| MtlParser.RemapPaths | _three.js-viewer/src/modules/mtl_parser.py:231-243 | the texture paths after rewriting are the images under the mapping of those before, leaving out empty results |
| MtlParser.RemapEmpty | _three.js-viewer/src/modules/mtl_parser.py:231-243 | an empty mapping changes nothing |
| MtlParser.MaterialLinesLayout | _three.js-viewer/src/modules/mtl_parser.py:254-289 | a block starts with `newmtl <name>` and ends with an empty line; it has a `d` line iff the opacity is not 1.0 and a `Tr` line iff the transparency is not 0.0 |
| MtlParser.ParseWritten | _three.js-viewer/src/modules/mtl_parser.py:245-291 | reading the written text gives back the table, when float() reads back each float str() writes for it and names and paths are plain |
| MtlParser.ParseWrittenExample | _three.js-viewer/src/modules/mtl_parser.py:245-291 | a concrete table with a colour and an opacity, and a writer and reader that agree on its floats, meet that hypothesis and read back as the table |
| MtlParser.MTLParser.constructor | _three.js-viewer/src/modules/mtl_parser.py:62-64 | a new parser holds no materials |
| MtlParser.MTLParser.ParseString | _three.js-viewer/src/modules/mtl_parser.py:153-222 | the table after the line loop is `ParseMtl` of the content |
| MtlParser.MTLParser.GetAllTexturePaths | _three.js-viewer/src/modules/mtl_parser.py:224-229 | the union loop returns `AllTexturePaths` of the table |
| MtlParser.MTLParser.UpdateTexturePaths | _three.js-viewer/src/modules/mtl_parser.py:231-243 | the table after the loop is `RemapTable` of the old table |
| MtlParser.MTLParser.ToMtlString | _three.js-viewer/src/modules/mtl_parser.py:245-291 | the loop returns `MtlText` of the table |
| HtmlGenerator.EscapeJsDirect | _three.js-viewer/src/modules/html_generator.py:150-157 | the three passes equal one left-to-right pass, so no backslash inserted by a pass is escaped again |
| HtmlGenerator.EscapeJsRoundTrip | _three.js-viewer/src/modules/html_generator.py:135-159 | read inside a template literal, the escaped text is the original text with `\r\n` and `\r` turned into `\n`; text without `\r` reads back as itself |
| HtmlGenerator.EscapeJsCarriageReturn | _three.js-viewer/src/modules/html_generator.py:135-159 | the escape leaves `\r\n` as it is, so `a\r\nb` reads back as `a\nb` |
| HtmlGenerator.EscapeJsSafe | _three.js-viewer/src/modules/html_generator.py:153-157 | in the escaped text every backtick and every `${` is escaped by a backslash, so the literal is neither closed nor interpolated |
| HtmlGenerator.EscapeJsPlain | _three.js-viewer/src/modules/html_generator.py:135-159 | text with no backslash, backtick or `${` is unchanged |
| HtmlGenerator.EscapeHtmlEach | _three.js-viewer/src/modules/html_generator.py:171-176 | the five passes equal replacing each character by its entity, so no entity is escaped twice |
| HtmlGenerator.EscapeHtmlRoundTrip | _three.js-viewer/src/modules/html_generator.py:171-172 | decoding the five entities gives the title back, so each `&` became exactly one `&amp;` |
| HtmlGenerator.EscapeHtmlSafe | _three.js-viewer/src/modules/html_generator.py:171-176 | the escaped text holds no `<`, `>`, `"` or `'` |
| HtmlGenerator.EscapeHtmlPlain | _three.js-viewer/src/modules/html_generator.py:171-176 | text with none of the five special characters is unchanged |
| HtmlGenerator.ObjBodyFill | _three.js-viewer/src/modules/html_generator.py:73-75 | a template with each OBJ placeholder once gets the escaped OBJ, the escaped MTL and the texture JSON in their places |
| HtmlGenerator.ObjDataRescanned | _three.js-viewer/src/modules/html_generator.py:73-74 | the passes rescan spliced text: OBJ text that is `{{MTL_DATA}}` is itself replaced by the MTL text |
| HtmlGenerator.PlyBodyFill | _three.js-viewer/src/modules/html_generator.py:119 | every `{{PLY_DATA}}` gets the escaped PLY text |
| HtmlGenerator.SetTitleFill | _three.js-viewer/src/modules/html_generator.py:78-80 | a non-empty title replaces the default title element with the escaped title; an empty one keeps it |
| HtmlGenerator.ObjViewerPlain | _three.js-viewer/src/modules/html_generator.py:73-80 | a template with no placeholder and no default title is returned as it is |
| TextureProcessor.SuffixOf | _three.js-viewer/src/modules/texture_processor.py:77 | a non-empty stem followed by an extension has that extension as its suffix |
| TextureProcessor.SuffixShape | _three.js-viewer/src/modules/texture_processor.py:77 | a suffix is empty or a dot-led extension ending the name after a non-empty stem |
| TextureProcessor.ProcessRejects | _three.js-viewer/src/modules/texture_processor.py:77-92 | a texture fails iff its lower-cased suffix is not one of the five supported ones or it is scaled to a size with a side below one pixel (a negative maximum, or a side rounded down to zero), which the image library refuses |
| TextureProcessor.NegativeMaxFails | _three.js-viewer/src/modules/texture_processor.py:81-92 | with a negative maximum every supported texture fails, and the totals keep only its file size added to the original total |
| TextureProcessor.EncodingTable | _three.js-viewer/src/modules/texture_processor.py:97-120 | MIME and quality follow the format; the WebP flag wins; otherwise the suffix's own format, and JPEG for `.bmp`; `converted` iff the WebP flag is on or the suffix has no written format, so a `.webp` file with the flag keeps its format and still counts as converted |
| TextureProcessor.DownscaleFits | _three.js-viewer/src/modules/texture_processor.py:172-183 | a fitting size is unchanged; otherwise the longer side becomes the maximum and neither side grows |
| TextureProcessor.DownscaleRatio | _three.js-viewer/src/modules/texture_processor.py:177-183 | the other side is floor(side × max / longer), the height branch taken when both are equal |
| TextureProcessor.ScaleRounds | _three.js-viewer/src/modules/texture_processor.py:180 | the scaled side is the largest whole number whose multiple of the longer side stays within side × max |
| TextureProcessor.DownscaleToZero | _three.js-viewer/src/modules/texture_processor.py:178-186 | a 5000×1 texture with maximum 2048 scales to 2048×0, a size the image library refuses |
| TextureProcessor.ProcessFits | _three.js-viewer/src/modules/texture_processor.py:86-94 | a texture is downscaled iff a non-zero maximum is set and exceeded; it then fits, and otherwise keeps its size |
| TextureProcessor.ProcessUri | _three.js-viewer/src/modules/texture_processor.py:122-124 | the encoded size is the URI's length, and the URI reads back as the format's MIME type and the encoder's bytes |
| TextureProcessor.DataUriRoundTrip | _three.js-viewer/src/modules/texture_processor.py:227 | for a MIME type without `;`, `data:<mime>;base64,<payload>` gives back its MIME type and payload |
| TextureProcessor.DataUriLength | _three.js-viewer/src/modules/texture_processor.py:227 | the URI is 13 characters plus the MIME type plus 4 per started group of 3 bytes |
| TextureProcessor.ConvertedNotCounted | _three.js-viewer/src/modules/texture_processor.py:97-120 | a `.bmp` texture of an accepted size without the WebP flag is reported converted while `converted_count` stays the same |
| TextureProcessor.BatchCounts | _three.js-viewer/src/modules/texture_processor.py:81-126 | `processed` grows by the number of textures processed; `total_original_size` grows by the file sizes of all textures with a supported suffix, failed ones included; the encoded total never shrinks |
| TextureProcessor.ByNameKeys | _three.js-viewer/src/modules/texture_processor.py:149-157 | the batch result has one entry per file name |
| TextureProcessor.ByNameLast | _three.js-viewer/src/modules/texture_processor.py:151-157 | a name's entry is the result of the last file of that name |
| TextureProcessor.TextureProcessor.constructor | _three.js-viewer/src/modules/texture_processor.py:27-51 | the settings are kept and the totals start at zero |
| TextureProcessor.TextureProcessor.ProcessTexture | _three.js-viewer/src/modules/texture_processor.py:53-137 | returns `Process` of the texture; the totals after are `RecordResult` of the old ones, which counts the file size of a texture that fails after its suffix check |
| TextureProcessor.TextureProcessor.ProcessTexturesBatch | _three.js-viewer/src/modules/texture_processor.py:139-159 | the results are the per-name map of `Process`; the totals after are `BatchStats` of the old ones |
| Base64.RoundTrip | _three.js-viewer/src/modules/texture_processor.py:225 | decoding the base64 text of any bytes gives the bytes back |
| Base64.EncodeLength | _three.js-viewer/src/modules/texture_processor.py:225 | the base64 text has 4 characters per started group of 3 bytes |
| Base64.EncodeAlphabet | _three.js-viewer/src/modules/texture_processor.py:225 | the base64 text uses the 64-character alphabet, with `=` only in its last two places |

## Left out

- File access: existence checks, `open`/`read`/`readlines`, `mkdir`, writing pages, template loading, `find_obj_files`, `find_mtl_file`, `get_template_info` and the `generate_obj_viewer.py` command line. File contents are inputs (`ObjFile.lines`, strings).
- `FileNotFoundError` paths. A file is always there in the model.
- `MTLParser.parse_file`, which repeats `parse_string`'s line loop over a file.
- `Material.__repr__` and the `__main__` examples, which only print.
- Python `float()` and `str()` of floats. They are the parameters `FloatParser` and `FloatWriter`, and the round trip is proved under the hypothesis that `float()` reads back each float `str()` writes for the table, as Python does for every finite float.
- `Text.ParseSigned`/`ParseInt`: they model `int()` on ASCII decimal digits with an optional sign and single underscores between digits. Non-ASCII decimal digits, which `int()` also accepts, are not modelled.
- `Text.Lower`: it lower-cases ASCII letters only, where `str.lower` also folds other letters.
- The image library: opening, Lanczos resizing, mode conversion and saving. The bytes written are the parameter `Encoder`. Of its failures only the resize to a side below one pixel is modelled (`ResizeRefused`); a file it cannot open or write is not.
- TextureProcessor.Scale: it uses exact rational floor(side × max / longer), where the source computes `int(height * (max_size / width))` in floating point. That can give one less when the exact quotient is a whole number.
- `get_stats_summary`, `format_bytes`, `format_file_size` and `estimate_output_size`, which are floating-point reporting.
- `json.dumps` of the texture table: the page takes the JSON text as an input. `_find_placeholders` and its regular expression are also left out.
- The warnings printed for skipped MTL lines and failed textures.
- ObjSession.ParseFilesAnalyzed, ObjSession.ParseFilesStats and ObjSession.ParseFilesNames: these need `Unbroken(files)`, meaning no stripped line or file name holds a line break that `splitlines()` would split on. Without it, re-reading the merged text can count differently.
- PLY decoding and camera framing are not part of this model.
