# Fingerprint minutiae preprocessing, modelled in Dafny

This project models the core of a fingerprint-synthesis preprocessing
package. It covers the part that turns minutiae detected by the NBIS
`mindtct` detector into training templates, in three stages.

1. **Conversion** (`convert_min_to_txt`, `convert_all_minutiae_files`). Each
   `.min` file has a three-line header followed by colon-separated records
   `id:x,y:direction:quality:type:...`. Each record becomes one canonical line
   `type x y orientation_degrees`, where type is 1 for a bifurcation and 2 for
   a ridge ending, and the orientation is `(90 - 11.25 * direction) % 360`.
   - A record whose quality is below the threshold is dropped.
   - A record that does not parse is dropped.
   - After a batch, a written file with fewer non-blank lines than the minimum count is removed.
2. **Reading back** (`parse_minutiae_file`). `np.loadtxt` turns a canonical
   file into an N x 4 table, and the orientation column is converted to
   radians. A one-dimensional result is reshaped into a single row. Any
   failure gives the empty (0, 4) table.
3. **Rendering** (`create_minutiae_map`, `create_orientation_map`,
   `create_template_image`, `create_template_from_file`,
   `create_templates_from_folder`). Each point is scaled from the original
   size to the target size and truncated toward zero. A position map marks
   each point's pixel, and an orientation map draws a short segment per
   point. Both maps are Gaussian-smoothed, multiplied by a gain, added,
   clipped to a byte and stacked as channels:
   - red: bifurcations;
   - green: ridge endings;
   - blue: singular points, or empty.

The `PreprocessingPipeline` class chains these stages, after image
preprocessing and detection, and reports the count and success rate of every
stage.

Modules, one per concern:

| module | file | models |
|---|---|---|
| `Wrappers` | `wrappers.dfy` | `Option` |
| `Seqs` | `seqs.dfy` | `Map` over sequences |
| `Text` | `text.dfy` | the Python string operations the source relies on: `strip`, `split`, `readlines`, `split()` on whitespace, `int()`, `float()`, `str()` |
| `Paths` | `paths.dfy` | `os.path.join`, `basename` and `splitext` |
| `Config` | `config.dfy` | the rendering parameters and their defaults (`preprocessing/config.py:21-25`) |
| `MinutiaeCodec` | `minutiae_codec.dfy` | the per-line decode and `convert_min_to_txt` |
| `MinutiaeStore` | `minutiae_store.dfy` | `convert_all_minutiae_files`: the output directory as a map from path to contents |
| `MinutiaeTable` | `minutiae_table.dfy` | `np.loadtxt` and `parse_minutiae_file` |
| `PointFields` | `point_fields.dfy` | `create_minutiae_map` and `create_orientation_map` on `array2` |
| `TemplateRendering` | `template_rendering.dfy` | channels, `create_template_image` on `array3`, one file, a folder |
| `Pipeline` | `pipeline.dfy` | the `PreprocessingPipeline` class and `create_pipeline` |

Choices made in the model:

- **Orientation.** The direction unit is 11.25 = 45/4 degrees, so every
  orientation the converter produces is a whole number of quarter-degrees.
  The model keeps orientations as quarter-degrees. `OrientationDegrees`
  proves this integer rule equal to the source's expression
  `(90 - 11.25 * direction) % 360` evaluated in exact arithmetic, with
  Python's floored `%`. For the directions `mindtct` writes (0 to 31) every
  intermediate double is exact, so Python computes the same value; larger
  directions are listed under Left out. Numbers read back from text are
  exact reals.
- **Line terminator.** The writer as written appends the two characters `\`
  and `n` after each record, not a line break (see Findings). The converter,
  the batch and the pipeline take the terminator as a parameter:
  `SourceTerminator` is the source's `\\n`, `LineTerminator` the line break it
  evidently means. What a written file contains is proved for both, and the
  pipeline's statistics say what the as-written terminator leads to.
- **Field order.** The comment at `preprocessing/minutiae_extraction.py:173`
  gives a record as `ID:x,y:direction:type:quality`, but the code reads the
  quality from the fourth field and the type from the fifth (lines 186 and
  193-194). The model follows the code, and
  `TypeBeforeQualityIsSkipped` shows that a line in the commented order is
  dropped.
- **Scaling.** Scaled coordinates are truncated toward zero, as
  `astype(np.int32)` and `int()` do in the code.

## Model

| member | source | states |
|---|---|---|
| Text.StripSpec | preprocessing/minutiae_extraction.py:168-170 | a stripped line has no surrounding whitespace, and it is empty exactly when the line is blank |
| Text.StripUntouched | preprocessing/minutiae_extraction.py:193 | stripping a text with no surrounding whitespace leaves it unchanged |
| Text.SplitSpec | preprocessing/minutiae_extraction.py:174 | no part of `split(':')` holds a separator, and there is one part exactly when the line has no separator |
| Text.JoinSplit | preprocessing/minutiae_extraction.py:174 | joining the parts of a split with its separator gives back the line |
| Text.SplitJoin | preprocessing/minutiae_extraction.py:174 | splitting a join of separator-free parts gives back the parts |
| Text.SplitAfterFirst | preprocessing/minutiae_extraction.py:174 | a separator-free first part is split off and the rest is split on its own |
| Text.LinesSpec | preprocessing/minutiae_extraction.py:155-156 | no line `readlines` yields holds a line break |
| Text.NonBlankCount | preprocessing/minutiae_extraction.py:256 | the non-blank line count never exceeds the number of lines |
| Text.NonBlankCountAll | preprocessing/minutiae_extraction.py:256 | when no line is blank, every line is counted |
| Text.SingleLine | preprocessing/minutiae_extraction.py:155-156 | a non-empty text without a line break is one line |
| Text.TokensOfJoin | preprocessing/minutiae_extraction.py:281 | splitting space-joined words on whitespace gives back the words |
| Text.TokensCover | preprocessing/minutiae_extraction.py:281 | every non-space character of a line lands in one of its whitespace-separated words |
| Text.NatToString | preprocessing/minutiae_extraction.py:196 | the decimal text of a natural number is a non-empty digit string whose value is the number |
| Text.IntToString | preprocessing/minutiae_extraction.py:196 | the text of an integer is made of digits and `-`, without surrounding whitespace |
| Text.ParseIntOfIntToString | preprocessing/minutiae_extraction.py:179 | `int()` of an integer's text gives back the integer |
| Text.ParseDecimalOfIntToString | preprocessing/minutiae_extraction.py:281 | reading an integer's text as a float gives its value |
| Text.ParseDecimalWithFraction | preprocessing/minutiae_extraction.py:281 | reading `n.f` as a float gives n plus the value of the fraction digits |
| Text.ParseDecimalRejects | preprocessing/minutiae_extraction.py:186 | a word holding a character that belongs to no numeral is not a float |
| Paths.BaseNameOfJoin | preprocessing/minutiae_extraction.py:159 | the base name of `join(root, name)` is `name` when the name has no `/` |
| Paths.StemOfExtension | preprocessing/minutiae_extraction.py:159 | `splitext` of `stem.ext` gives `stem` when ext has no dot and the stem has a character other than a dot |
| MinutiaeCodec.OrientationDegrees | preprocessing/minutiae_extraction.py:182-183 | the quarter-degree orientation equals `(90 - 11.25 * u) % 360` evaluated in exact arithmetic with Python's floored `%`, and lies in [0, 360) |
| MinutiaeCodec.OrientationTurns | preprocessing/minutiae_extraction.py:183 | units u and u + 32 give the same orientation; unit 0 is 90 degrees and unit 8 is 0 degrees |
| MinutiaeCodec.QuarterDigitsValue | preprocessing/minutiae_extraction.py:196 | the fraction digits written for r quarter-degrees read as r/4 |
| MinutiaeCodec.QuarterText | preprocessing/minutiae_extraction.py:196 | whole degrees and a remainder in quarters, printed with a point, read back as their sum |
| MinutiaeCodec.DegreesTextValue | preprocessing/minutiae_extraction.py:196 | the degrees text written for an orientation reads back as exactly that orientation in degrees |
| MinutiaeCodec.FormatRecordChars | preprocessing/minutiae_extraction.py:196 | a canonical record consists of digits, `-`, `.` and spaces, and starts with its type digit |
| MinutiaeCodec.FieldTextsAreWords | preprocessing/minutiae_extraction.py:196 | each field of a canonical record is one word, so splitting the record on whitespace gives back its four fields |
| MinutiaeCodec.NumeralIsWord | preprocessing/minutiae_extraction.py:196 | a non-empty run of numeral characters (digits, `-`, `.`) holds no whitespace, so it is one word |
| MinutiaeCodec.FormatRecordIsOneLine | preprocessing/minutiae_extraction.py:196 | a canonical record holds no line break and no `#`, and is not blank |
| MinutiaeCodec.ConvertMinToTxt | preprocessing/minutiae_extraction.py:154-212 | the converter writes nothing (None) when no record survives; otherwise it writes every surviving record in line order, each followed by the terminator it is given |
| MinutiaeCodec.CollectRecords | preprocessing/minutiae_extraction.py:164-200 | the record loop keeps exactly the surviving records of the body lines, in order, and their canonical texts |
| MinutiaeCodec.WriteRecords | preprocessing/minutiae_extraction.py:203-206 | the written content is every record in order, each followed by the terminator |
| MinutiaeCodec.SurvivorsStep | preprocessing/minutiae_extraction.py:167-200 | reading one more line appends that line's record, if any, after the earlier ones |
| MinutiaeCodec.FormatAllStep | preprocessing/minutiae_extraction.py:196 | the canonical texts of one more record extend the earlier texts by that record's text |
| MinutiaeCodec.RenderStep | preprocessing/minutiae_extraction.py:205-206 | writing one more record appends that record and its terminator |
| MinutiaeCodec.ReadJoinedFields | preprocessing/minutiae_extraction.py:168-176 | a line made of five colon-free fields reads as exactly those fields |
| MinutiaeCodec.ReadCoordinates | preprocessing/minutiae_extraction.py:179 | the field `x,y` of two integers reads back as (x, y) |
| MinutiaeCodec.RecordFieldsValues | preprocessing/minutiae_extraction.py:179-182 | the coordinate and direction fields of a record read back as its coordinates and direction unit |
| MinutiaeCodec.ReadRecordLine | preprocessing/minutiae_extraction.py:168-176 | a record line is read from its five fields |
| MinutiaeCodec.ReadEncodedRecord | preprocessing/minutiae_extraction.py:172-196 | a line `id:x,y:u:quality:type` reads as the minutia with the type named by `type`, position (x, y), orientation from u, and that quality |
| MinutiaeCodec.FieldsRead | preprocessing/minutiae_extraction.py:179-194 | five fields whose coordinates, direction and quality parse read as the minutia they describe, with that quality |
| MinutiaeCodec.TypeBeforeQualityIsSkipped | preprocessing/minutiae_extraction.py:173-186 | a line in the order the comment gives (type before quality) is dropped, because its type word is not a float |
| MinutiaeCodec.UnreadableQualityIsSkipped | preprocessing/minutiae_extraction.py:186 | a line whose fourth field is not a float is dropped |
| MinutiaeCodec.FieldsBadQuality | preprocessing/minutiae_extraction.py:186 | fields with a quality that is not a float give no reading |
| MinutiaeCodec.KeptExactly | preprocessing/minutiae_extraction.py:164-200 | a record is kept exactly when some line decoded to it |
| MinutiaeCodec.KeptAppend | preprocessing/minutiae_extraction.py:164-200 | the records kept from two runs of lines are those of the first followed by those of the second |
| MinutiaeCodec.SurvivorsAppend | preprocessing/minutiae_extraction.py:167-200 | lines are decoded independently: the records of two runs of lines join |
| MinutiaeCodec.DecodeAllAppend | preprocessing/minutiae_extraction.py:167-200 | decoding two runs of lines one line at a time joins their decodes |
| MinutiaeCodec.SurvivorsExactly | preprocessing/minutiae_extraction.py:167-200 | a minutia is among the records exactly when some line decodes to it |
| MinutiaeCodec.BlankLineSkipped | preprocessing/minutiae_extraction.py:168-170 | a blank line is skipped and contributes no record |
| MinutiaeCodec.SkippedLineDropsOut | preprocessing/minutiae_extraction.py:174-200 | a line that yields no record leaves the records of the other lines as they are |
| MinutiaeCodec.SingleSkipped | preprocessing/minutiae_extraction.py:174-200 | a line that yields no record, read on its own, gives no records |
| MinutiaeCodec.KindFromFifthField | preprocessing/minutiae_extraction.py:193-194 | a read record has type 1 exactly when its stripped fifth field contains `BIF`, and type 2 otherwise |
| MinutiaeCodec.DecodeMeaning | preprocessing/minutiae_extraction.py:186-190 | a line yields a record exactly when it reads and its quality is not below the threshold |
| MinutiaeCodec.LinesAfterFirst | preprocessing/minutiae_extraction.py:155-156 | the first line of a text is split off before its break |
| MinutiaeCodec.HeaderLinesSkipped | preprocessing/minutiae_extraction.py:167 | the record lines are the lines after the three header lines |
| MinutiaeCodec.HeaderIgnored | preprocessing/minutiae_extraction.py:166-167 | the three header lines never contribute records, whatever they hold |
| MinutiaeCodec.RenderLines | preprocessing/minutiae_extraction.py:203-206 | with a line break as terminator, the lines of the written file are exactly the records |
| MinutiaeCodec.RenderFront | preprocessing/minutiae_extraction.py:205-206 | the written file starts with the first record and its terminator |
| MinutiaeCodec.RenderAppend | preprocessing/minutiae_extraction.py:205-206 | writing two runs of records gives the two writings one after the other |
| MinutiaeCodec.RenderAvoids | preprocessing/minutiae_extraction.py:205-206 | a character in neither the records nor the terminator is not in the written file |
| MinutiaeCodec.AsWrittenHasNoLineBreak | preprocessing/minutiae_extraction.py:206 | with the terminator as written, the file holds no line break at all |
| MinutiaeStore.OutputPathOfMin | preprocessing/minutiae_extraction.py:159-160 | `<dir>/<stem>.min` in any directory is converted to `<output_dir>/<stem>.txt` |
| MinutiaeStore.MinFilesSpec | preprocessing/minutiae_extraction.py:242-246 | the batch converts exactly the walked files whose name ends in `.min` |
| MinutiaeStore.AcceptedCount | preprocessing/minutiae_extraction.py:248-262 | the success count never exceeds the number of files |
| MinutiaeStore.ConvertAllMinutiaeFiles | preprocessing/minutiae_extraction.py:236-267 | total is the number of `.min` files; successful is the number accepted; the output directory is each file's write, with the given terminator, followed, when it has too few lines, by its removal, in walk order |
| MinutiaeStore.BatchStep | preprocessing/minutiae_extraction.py:248-262 | one more file updates the directory by its own step and adds one to the count exactly when it is accepted |
| MinutiaeStore.CollectMinFiles | preprocessing/minutiae_extraction.py:242-246 | the collecting loop finds exactly the `.min` files, in walk order |
| MinutiaeStore.ConvertAndCheck | preprocessing/minutiae_extraction.py:251-262 | one file is accepted exactly when it is converted with enough lines; its output is written, then removed when it has too few lines |
| MinutiaeStore.KeepIfLongEnough | preprocessing/minutiae_extraction.py:255-262 | a written output is kept exactly when it has at least the minimum number of non-blank lines, and otherwise removed |
| MinutiaeStore.RemoveWritten | preprocessing/minutiae_extraction.py:262 | removing a file just written leaves the directory as it was without that path |
| MinutiaeStore.ConvertFile | preprocessing/minutiae_extraction.py:251 | the per-file converter writes what the file's contents convert to, and nothing for an unreadable file |
| MinutiaeStore.CountNonBlankLines | preprocessing/minutiae_extraction.py:255-256 | the counting loop gives the number of non-blank lines |
| MinutiaeStore.ThresholdInvariant | preprocessing/minutiae_extraction.py:258-262 | after a batch, every output file the batch wrote and kept has at least the minimum number of non-blank lines |
| MinutiaeStore.UntouchedUnchanged | preprocessing/minutiae_extraction.py:236-267 | a path the batch never writes is present and unchanged exactly as before |
| MinutiaeStore.StepDirFrame | preprocessing/minutiae_extraction.py:251-262 | one file's step changes only its own output path, and leaves it with enough lines or absent |
| MinutiaeStore.WrittenIffConverts | preprocessing/minutiae_extraction.py:251-252 | a file's output is written exactly when the file is readable and some record survives |
| MinutiaeStore.ConvertedLineCount | preprocessing/minutiae_extraction.py:255-256 | a converted file has exactly one non-blank line per surviving record |
| MinutiaeStore.AcceptedMeaning | preprocessing/minutiae_extraction.py:252-259 | a file is accepted exactly when it is readable and has at least one surviving record and at least the minimum count of them |
| MinutiaeStore.SameStemOverwrite | preprocessing/minutiae_extraction.py:159-160 | two `.min` files with the same name in different subdirectories write the same output path, and the later accepted one wins |
| MinutiaeStore.AsWrittenLineCount | preprocessing/minutiae_extraction.py:206 | with the terminator as written, a converted file has exactly one non-blank line, however many records it holds |
| MinutiaeStore.AsWrittenBatchKeepsNothing | preprocessing/minutiae_extraction.py:206 | with the terminator as written and a minimum count above 1, no file is accepted and every output written is removed |
| MinutiaeTable.LoadText | preprocessing/minutiae_extraction.py:281 | a loaded table has every row as wide as the first |
| MinutiaeTable.Reshaped | preprocessing/minutiae_extraction.py:284-288 | what survives the reshape and the access to column 3 has at least one row and at least four columns |
| MinutiaeTable.LoadedTable | preprocessing/minutiae_extraction.py:279-294 | a table that loads always has at least one row, at least four columns, and equal widths |
| MinutiaeTable.ParseMinutiaeFile | preprocessing/minutiae_extraction.py:279-294 | on failure the result is the empty (0, 4) table; otherwise it has the loaded table's rows and columns, with column 3 turned from degrees into radians and the rest unchanged |
| MinutiaeTable.ParseRowAll | preprocessing/minutiae_extraction.py:281 | a row of numerals reads as their values |
| MinutiaeTable.ParseRecordFields | preprocessing/minutiae_extraction.py:281 | the four fields of a canonical record read back as its type, x, y and degrees |
| MinutiaeTable.RecordLineWords | preprocessing/minutiae_extraction.py:281 | a canonical record line, stripped of comments and split on whitespace, is exactly its four fields |
| MinutiaeTable.DataRowsAll | preprocessing/minutiae_extraction.py:281 | lines that each split into given non-empty words are exactly those data rows, in order |
| MinutiaeTable.ParseRowsAll | preprocessing/minutiae_extraction.py:281 | rows that each read as given values load as exactly that table |
| MinutiaeTable.ParseRecords | preprocessing/minutiae_extraction.py:281 | the written records load as exactly one row per record |
| MinutiaeTable.ReadBackRecords | preprocessing/minutiae_extraction.py:281-288 | round trip: records written with line breaks load back as one row per record with exact type, x, y and degrees |
| MinutiaeTable.LoadedRows | preprocessing/minutiae_extraction.py:281-288 | a text whose rows read as a rectangular table of at least four columns loads, reshape included, as exactly that table |
| MinutiaeTable.ConvertedReadsBack | preprocessing/minutiae_extraction.py:203-206 | what the converter writes for a `.min` text reads back as the records that survived, in order |
| MinutiaeTable.ParseRowFails | preprocessing/minutiae_extraction.py:281 | a row with a word that is no numeral makes loading fail |
| MinutiaeTable.AsWrittenUnreadable | preprocessing/minutiae_extraction.py:206 | with the terminator as written, loading a converted file fails, so the reader returns the empty table |
| PointFields.TruncTowardZero | preprocessing/template_rendering.py:44-45 | `astype(int32)` and `int()` move toward zero by less than one and keep whole numbers |
| PointFields.ScaleOne | preprocessing/template_rendering.py:38-39 | scaling to the original size leaves coordinates unchanged |
| PointFields.PixelOf | preprocessing/template_rendering.py:44-45 | a scaled, truncated and clipped point always indexes the target |
| PointFields.PixelOfSameSize | preprocessing/template_rendering.py:44-45 | at the original size, a point inside the image lands on its floor pixel |
| PointFields.MarkedPixelsSpec | preprocessing/template_rendering.py:44-48 | a pixel is marked exactly when some point maps to it, and every marked pixel is inside the target |
| PointFields.CreateMinutiaeMap | preprocessing/template_rendering.py:35-50 | the map has the target size, and is 255 exactly on the marked pixels and 0 elsewhere, also for no points |
| PointFields.InBoundsSamplesSpec | preprocessing/template_rendering.py:93-99 | exactly the segment samples inside the target are kept |
| PointFields.OrientationPixelsInBounds | preprocessing/template_rendering.py:93-99 | every pixel the orientation map sets is inside the target |
| PointFields.OrientationPixelsAppend | preprocessing/template_rendering.py:79-103 | points are drawn independently: the pixels of two runs of points join |
| PointFields.FailingPointSkipped | preprocessing/template_rendering.py:101-103 | a point whose drawing raises contributes nothing, and the other points are drawn as before |
| PointFields.CreateOrientationMap | preprocessing/template_rendering.py:70-105 | the map has the target size, and is 255 exactly on the in-bounds samples of the points' segments and 0 elsewhere |
| PointFields.DrawInBounds | preprocessing/template_rendering.py:93-99 | drawing one segment adds exactly its in-bounds samples to the pixels already set |
| TemplateRendering.TypeGroups | preprocessing/template_rendering.py:131-143 | there are three channels: bifurcations, endings, and singular points or the empty placeholder |
| TemplateRendering.FilterByTypeSpec | preprocessing/template_rendering.py:153-154 | the filter keeps exactly the points whose type is in the channel's group |
| TemplateRendering.FilterByTypeAppend | preprocessing/template_rendering.py:153-154 | the filter of two runs of points is the two filters joined, so order is kept |
| TemplateRendering.FilterByTypeNone | preprocessing/template_rendering.py:153-157 | points of other types leave nothing to draw |
| TemplateRendering.ChannelValue | preprocessing/template_rendering.py:177 | a channel value is a byte |
| TemplateRendering.ChannelValueSaturates | preprocessing/template_rendering.py:177 | the sum saturates at 0 and 255, and in between is cut down to a whole number |
| TemplateRendering.ChannelCellMeaning | preprocessing/template_rendering.py:147-177 | every channel value is a byte, and it is 0 unless the channel has a group with a point of its types |
| TemplateRendering.ChannelIgnoresOtherTypes | preprocessing/template_rendering.py:153-154 | adding points of other types changes nothing in a channel |
| TemplateRendering.OnPixelsOf | preprocessing/template_rendering.py:166-174 | the pixels at 255 in a drawn map are exactly the set it was drawn from |
| TemplateRendering.DrawFields | preprocessing/template_rendering.py:160-163 | the two maps of a channel set exactly the marked pixels and the in-bounds segment pixels |
| TemplateRendering.CreateChannel | preprocessing/template_rendering.py:147-177 | a channel has the target size and holds the clipped sum of the two smoothed fields times their gains, or zeros for the placeholder or no points |
| TemplateRendering.CreateTemplateImage | preprocessing/template_rendering.py:127-184 | the image is target-sized with three channels, each as above for its type group, with the default configuration when none is given |
| TemplateRendering.TablePoints | preprocessing/template_rendering.py:208 | a table gives one point per row |
| TemplateRendering.ArrayPointsOfTable | preprocessing/minutiae_extraction.py:288 | the points read off the reader's array are those of the loaded table, in radians |
| TemplateRendering.CreateTemplateFromFile | preprocessing/template_rendering.py:206-227 | an image is made exactly when the file loads and the scaling cannot divide by zero, with the target size standing in for a missing original size; the image is then the template of the file's points |
| TemplateRendering.ConvertedHasNoSingularPoints | preprocessing/template_rendering.py:131-137 | a converted file holds only types 1 and 2, so the singular-point channel has nothing to draw |
| TemplateRendering.RecordKinds | preprocessing/minutiae_extraction.py:194 | canonical records only carry types 1 and 2 |
| TemplateRendering.SelectedBound | preprocessing/template_rendering.py:260-278 | no more outputs than files |
| TemplateRendering.SelectedSpec | preprocessing/template_rendering.py:260-278 | an output is listed exactly when some accepted file produced it |
| TemplateRendering.SelectedAll | preprocessing/template_rendering.py:260-278 | every file gives an output exactly when every file is accepted |
| TemplateRendering.SavedPathsBound | preprocessing/template_rendering.py:260-283 | no more templates are saved than there are `.txt` files |
| TemplateRendering.SavedPathsSpec | preprocessing/template_rendering.py:268-278 | a path is saved exactly when some file's template is made and saved there |
| TemplateRendering.SavedPathsAll | preprocessing/template_rendering.py:260-283 | every file is saved exactly when each file's template is made and saved |
| TemplateRendering.SavedPathsStep | preprocessing/template_rendering.py:260-278 | one more file adds its path exactly when its template is saved |
| TemplateRendering.PngOfTxt | preprocessing/template_rendering.py:270-271 | `<stem>.txt` is saved as `<output_dir>/<stem>.png` |
| TemplateRendering.ConvertedMakesTemplate | preprocessing/template_rendering.py:208-223 | every file the converter writes (with line breaks) yields a template |
| TemplateRendering.CreateAndSave | preprocessing/template_rendering.py:263-278 | one file gives its `.png` path exactly when its template is made and saving succeeds |
| TemplateRendering.CreateTemplatesFromFolder | preprocessing/template_rendering.py:249-283 | total is the number of `.txt` entries; the saved paths are those of the files whose template is made and saved, in listing order; successful is their number, at most the total |
| Pipeline.Rate | preprocessing/__init__.py:111 | with a positive denominator the rate is the float quotient; otherwise it is the integer 0 |
| Pipeline.RateBounded | preprocessing/__init__.py:111 | the rate of a part of a whole lies in [0, 1], and is 1 exactly when nothing failed |
| Pipeline.RatesChain | preprocessing/__init__.py:108-151 | when every stage has input, the product of the stage rates is the overall rate |
| Pipeline.CreatePipeline | preprocessing/__init__.py:262-264 | a fresh pipeline with the given configuration, or the default one |
| Pipeline.PreprocessingPipeline.constructor | preprocessing/__init__.py:59-66 | the configuration is the given one, or the default |
| Pipeline.PreprocessingPipeline.RunFullPipeline | preprocessing/__init__.py:69-156 | the statistics of the four stages run in turn through `processed`, `minutiae`, `minutiae_txt` and `templates` under the output directory: each count as its stage reports it, each rate against the previous stage's count, and the overall rate against the input images; with the source's `\\n` terminator the conversion stage reports 0 converted and the template stage a rate of 0 |
| Pipeline.PreprocessingPipeline.RunPreprocessingOnly | preprocessing/__init__.py:158-190 | the processed count, the total and their rate |
| Pipeline.PreprocessingPipeline.RunMinutiaeExtractionOnly | preprocessing/__init__.py:192-228 | extraction into `minutiae`, then conversion with minimum count 5 into `minutiae_txt`, with the extraction rate against the images and the conversion rate against the extracted count; with the source's `\\n` terminator nothing is converted, and the conversion rate is 0 whenever anything was extracted |
| Pipeline.PreprocessingPipeline.RunTemplateCreationOnly | preprocessing/__init__.py:230-259 | the created count, the number of `.txt` files and their rate |
| Pipeline.TemplateCreationRate | preprocessing/__init__.py:255-259 | the template-creation rate is in [0, 1], and is 1 exactly when every `.txt` file became a saved template |

## Left out

- Image preprocessing (`process_folder`) and minutiae detection (`extract_minutiae_from_folder`, which runs `mindtct` as a subprocess) are not part of this model. The pipeline takes their (succeeded, total) results from its environment.
- The Gaussian filter (`ndimage.gaussian_filter`) is a parameter `Blur`. `skimage.draw.line_nd` and the `cos`/`sin` endpoint computation are a parameter `Draw`. Only what the source does with their results is modelled.
- `plt.imsave` is the parameter `saves`, which says whether saving to a path succeeds. The image contents are not carried into the folder result, which records only the saved paths.
- File system I/O:
  - `os.walk` and `os.listdir` are snapshots given as inputs, in their order;
  - an unreadable file is a missing text;
  - `os.makedirs` is left out;
  - in the pipeline, the snapshot of a stage's input directory is not tied to the map the previous stage produced.
- Logging and `tqdm` progress bars have no effect on results and are left out.
- `visualize_template` (matplotlib display) is left out.
- Floating point: numbers are exact reals. This covers the float32 maps, the float orientation arithmetic and `np.pi` (its double value as a rational).
- TemplateRendering.ChannelValue: does not model float32 rounding of the smoothed fields before the clip.
- MinutiaeTable.LoadText: `float()` is modelled for plain decimal numerals with an optional sign. `nan`, `inf`, exponents and underscores are read as failures.
- MinutiaeCodec.OrientationDegrees: states the orientation in exact arithmetic, not in doubles. Python's doubles round once a direction reaches about 2^47 in magnitude (direction 2^53 + 1 gives 96.0 in Python and 78.75 here). A direction too large for a double makes `11.25 * direction` raise `OverflowError`. The per-line handler at `preprocessing/minutiae_extraction.py:198` does not catch it, so the outer handler at line 214 returns None for the whole file, while the model keeps the record.
- MinutiaeCodec.ConvertMinToTxt: the quality is compared as an exact real, not as a double. Coordinates and directions are unbounded integers, as Python's `int` is, with the double overflow noted under OrientationDegrees left out. The model reads only plain decimal numerals, so it drops records that the source keeps:
  - `float()` also accepts `nan`, `inf`, `infinity` and exponent forms such as `1e-3`;
  - a `nan` quality passes every threshold in the source, since `nan < t` is false;
  - `int()` and `float()` accept underscores between digits (`int("1_0")` is 10);
  - `int()` and `float()` accept non-ASCII decimal digits.
- PointFields.PixelOf: does not model the 32-bit wrap-around of `astype(np.int32)` for coordinates beyond 2^31 once scaled.
- TemplateRendering.CreateTemplateImage: requires a positive target size. The same requirement sits on TemplateRendering.CreateChannel, TemplateRendering.CreateTemplateFromFile, TemplateRendering.CreateAndSave, TemplateRendering.CreateTemplatesFromFolder, Pipeline.PreprocessingPipeline.RunFullPipeline and Pipeline.PreprocessingPipeline.RunTemplateCreationOnly. The source passes sizes with a zero side through to `np.zeros`, and the model does not cover that case.
- TemplateRendering.CreateTemplatesFromFolder: the directory listing is an input, so a missing directory lists as empty. In the source, `os.listdir` raises `FileNotFoundError` for a missing directory (`preprocessing/template_rendering.py:258`). Nothing catches it on the way out through `run_template_creation_only` (`preprocessing/__init__.py:248`) or `run_full_pipeline`, so Pipeline.PreprocessingPipeline.RunTemplateCreationOnly and Pipeline.PreprocessingPipeline.RunFullPipeline return statistics where the source raises.
- The placeholder channel list `[-1]` is modelled as an absent group (`None`), which is what the comparison at `preprocessing/template_rendering.py:148` selects.
- `TEMPLATE_SIZE` and the other unused configuration entries are not part of this model. Template sizes are parameters.

## Findings

| source | as written | input that shows it | evidently intended | confidence | as-written member | corrected member |
|---|---|---|---|---|---|---|
| preprocessing/minutiae_extraction.py:206 | `output_file.write(f"{data}\\n")` writes a backslash and the letter `n` after each record, not a line break | any `.min` file with five readable records, e.g. five lines `k:10,20:0:0.5:BIF` after a three-line header: the `.txt` is one line, so `convert_all_minutiae_files` counts 1 non-blank line, below the minimum 5, and removes it; and `np.loadtxt` fails on the word `90.0\n1`, so `parse_minutiae_file` returns the empty table | one record per line, written with a real line break | high (not executed) | MinutiaeStore.AsWrittenBatchKeepsNothing | MinutiaeTable.ConvertedReadsBack |

The converter as written is `Converted(text, threshold, SourceTerminator)`. Its consequences are proved:
- MinutiaeCodec.AsWrittenHasNoLineBreak: the file holds no line break;
- MinutiaeStore.AsWrittenLineCount: the file counts as one line;
- MinutiaeStore.AsWrittenBatchKeepsNothing: no file survives a batch with a minimum count above 1;
- MinutiaeTable.AsWrittenUnreadable: the reader returns the empty table.

The model uses the corrected terminator throughout. With it:
- MinutiaeCodec.RenderLines: the written lines are the records;
- MinutiaeStore.ConvertedLineCount: the line count is the record count;
- MinutiaeStore.AcceptedMeaning: the count threshold applies to the records;
- MinutiaeTable.ReadBackRecords and MinutiaeTable.ConvertedReadsBack: the file reads back record for record.
