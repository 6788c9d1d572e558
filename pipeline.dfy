/**
 * The `PreprocessingPipeline` class: it chains image preprocessing, minutiae
 * extraction, conversion to text and template creation over a tree of output
 * directories, and reports counts and success rates for each stage.
 *
 * Image preprocessing and minutiae extraction are outside this model: they are
 * functions of the environment that give (succeeded, total) for a source and an
 * output directory. The conversion and the template stages are the modelled
 * `ConvertAllMinutiaeFiles` and `CreateTemplatesFromFolder`. They read their
 * input directory through the environment's snapshot of it: the walk of the
 * `.min` directory and the listing of the `.txt` directory.
 */
module Pipeline {
  import opened Wrappers
  import opened Config
  import opened Paths
  import opened PointFields
  import opened MinutiaeCodec
  import opened MinutiaeStore
  import opened TemplateRendering

  /** A value of a statistics dictionary: an integer, or a float. */
  datatype Value = Count(n: int) | Ratio(q: real)

  /** One statistics dictionary. */
  type Stats = map<string, Value>

  /** `num / den if den > 0 else 0`: a float ratio, or the integer 0 when there is nothing to divide by. */
  function Rate(num: int, den: int): (v: Value)
    ensures den > 0 ==> v.Ratio? && v.q * den as real == num as real
    ensures den <= 0 ==> v == Count(0)
  {
    if den > 0 then Ratio(num as real / den as real) else Count(0)
  }

  /** A rate of a part of a whole lies between 0 and 1, and is 1 exactly when nothing failed. */
  lemma RateBounded(num: int, den: int)
    requires 0 <= num <= den && den > 0
    ensures 0.0 <= Rate(num, den).q <= 1.0
    ensures Rate(num, den).q == 1.0 <==> num == den
  {
    var q := Rate(num, den).q;
    assert q * den as real == num as real;
  }

  /**
   * The stage rates of a full run chain up: when every stage has something to
   * work on, their product is the overall rate.
   */
  lemma RatesChain(total: int, processed: int, extracted: int, converted: int, created: int)
    requires total > 0 && processed > 0 && extracted > 0 && converted > 0
    ensures Rate(processed, total).q * Rate(extracted, processed).q * Rate(converted, extracted).q
            * Rate(created, converted).q == Rate(created, total).q
  {
    var t, p, e, c, k := total as real, processed as real, extracted as real, converted as real, created as real;
    calc {
      Rate(processed, total).q * Rate(extracted, processed).q * Rate(converted, extracted).q * Rate(created, converted).q;
      (p / t) * (e / p) * (c / e) * (k / c);
      { assert (p / t) * (e / p) == e / t; }
      (e / t) * (c / e) * (k / c);
      { assert (e / t) * (c / e) == c / t; }
      (c / t) * (k / c);
      { assert (c / t) * (k / c) == k / t; }
      k / t;
    }
  }

  /** What the pipeline cannot see, and the parameters of what it models. */
  datatype Environment = Environment(
    // `process_folder(input, output, filter_nfiq_score, enhance, config)`
    processFolder: (string, string, bool, bool, Config) -> (int, int),
    // `extract_minutiae_from_folder(input, output, config)`
    extractFolder: (string, string, Config) -> (int, int),
    // the files `os.walk` finds under a directory when the conversion runs
    walk: string -> seq<MinFile>,
    // the text output files present before the conversion runs, by path
    textOutputs: map<string, string>,
    // `os.listdir` of a directory, with each entry's contents, when template creation runs
    listing: string -> seq<TxtEntry>,
    blur: Blur,
    draw: Draw,
    // whether `plt.imsave` succeeds on a path
    saves: string -> bool)

  /** `create_pipeline`. */
  method CreatePipeline(config: Option<Config>) returns (pipeline: PreprocessingPipeline)
    ensures fresh(pipeline) && pipeline.config == config.GetOr(DefaultConfig())
  {
    pipeline := new PreprocessingPipeline(config);
  }

  class PreprocessingPipeline {
    var config: Config

    /** Without a configuration the defaults apply. */
    constructor (config: Option<Config>)
      ensures this.config == config.GetOr(DefaultConfig())
    {
      this.config := config.GetOr(DefaultConfig());
    }

    /**
     * `run_full_pipeline`: the four stages in turn, each reading the directory
     * the previous one wrote, under `outputDir`. Every rate is taken against
     * what the previous stage produced, and the overall rate against the input.
     * `terminator` is what the converter writes after each record.
     *
     * With the terminator as the source writes it, no converted file keeps the
     * five lines the conversion stage asks for: the stage reports 0 converted,
     * and the template stage's rate is the integer 0.
     */
    method RunFullPipeline(inputDir: string, outputDir: string, filterQuality: bool, enhance: bool,
                           templateSize: Size, terminator: string, env: Environment)
      returns (stats: map<string, Stats>)
      requires templateSize.h > 0 && templateSize.w > 0
      ensures var processedDir := JoinPath(outputDir, "processed");
              var minutiaeDir := JoinPath(outputDir, "minutiae");
              var txtDir := JoinPath(outputDir, "minutiae_txt");
              var templatesDir := JoinPath(outputDir, "templates");
              var preprocessed := env.processFolder(inputDir, processedDir, filterQuality, enhance, config);
              var extracted := env.extractFolder(processedDir, minutiaeDir, config).0;
              var converted := AcceptedCount(MinFiles(env.walk(minutiaeDir)), 0.0, 5, terminator);
              var created := |SavedPaths(TxtFiles(env.listing(txtDir)), templatesDir, env.saves)|;
              stats == map[
                "preprocessing" := map["processed" := Count(preprocessed.0), "total" := Count(preprocessed.1),
                                       "success_rate" := Rate(preprocessed.0, preprocessed.1)],
                "minutiae_extraction" := map["extracted" := Count(extracted),
                                             "success_rate" := Rate(extracted, preprocessed.0)],
                "minutiae_conversion" := map["converted" := Count(converted),
                                             "success_rate" := Rate(converted, extracted)],
                "template_creation" := map["created" := Count(created),
                                           "success_rate" := Rate(created, converted)],
                "overall" := map["input_images" := Count(preprocessed.1), "final_templates" := Count(created),
                                 "overall_success_rate" := Rate(created, preprocessed.1)]]
      ensures terminator == SourceTerminator ==>
                stats["minutiae_conversion"]["converted"] == Count(0) &&
                stats["template_creation"]["success_rate"] == Count(0)
    {
      var processedDir := JoinPath(outputDir, "processed");
      var minutiaeDir := JoinPath(outputDir, "minutiae");
      var txtDir := JoinPath(outputDir, "minutiae_txt");
      var templatesDir := JoinPath(outputDir, "templates");
      stats := map[];

      var (processedCount, totalImages) := env.processFolder(inputDir, processedDir, filterQuality, enhance, config);
      stats := stats["preprocessing" := map["processed" := Count(processedCount), "total" := Count(totalImages),
                                            "success_rate" := Rate(processedCount, totalImages)]];

      var (minutiaeCount, _) := env.extractFolder(processedDir, minutiaeDir, config);
      stats := stats["minutiae_extraction" := map["extracted" := Count(minutiaeCount),
                                                  "success_rate" := Rate(minutiaeCount, processedCount)]];

      var txtCount, minTotal, txtOutputs := ConvertAllMinutiaeFiles(env.walk(minutiaeDir), txtDir, env.textOutputs,
                                                                     0.0, 5, terminator);
      if terminator == SourceTerminator {
        AsWrittenBatchKeepsNothing(MinFiles(env.walk(minutiaeDir)), txtDir, env.textOutputs, 0.0, 5);
      }
      stats := stats["minutiae_conversion" := map["converted" := Count(txtCount),
                                                  "success_rate" := Rate(txtCount, minutiaeCount)]];

      var templateCount, txtTotal, saved := CreateTemplatesFromFolder(env.listing(txtDir), templatesDir, templateSize,
                                                                     false, Some(config), env.blur, env.draw, env.saves);
      stats := stats["template_creation" := map["created" := Count(templateCount),
                                                "success_rate" := Rate(templateCount, txtCount)]];

      stats := stats["overall" := map["input_images" := Count(totalImages), "final_templates" := Count(templateCount),
                                      "overall_success_rate" := Rate(templateCount, totalImages)]];
    }

    /** `run_preprocessing_only`: the first stage alone, writing straight into `outputDir`. */
    method RunPreprocessingOnly(inputDir: string, outputDir: string, filterQuality: bool, enhance: bool,
                                env: Environment) returns (stats: Stats)
      ensures var preprocessed := env.processFolder(inputDir, outputDir, filterQuality, enhance, config);
              stats == map["processed" := Count(preprocessed.0), "total" := Count(preprocessed.1),
                           "success_rate" := Rate(preprocessed.0, preprocessed.1)]
    {
      var (processedCount, totalImages) := env.processFolder(inputDir, outputDir, filterQuality, enhance, config);
      stats := map["processed" := Count(processedCount), "total" := Count(totalImages),
                   "success_rate" := Rate(processedCount, totalImages)];
    }

    /**
     * `run_minutiae_extraction_only`: extraction into `<outputDir>/minutiae`,
     * then conversion into `<outputDir>/minutiae_txt`, each record followed by
     * `terminator`. The extraction rate is taken against the images, the
     * conversion rate against what was extracted. With the terminator as the
     * source writes it, nothing is converted.
     */
    method RunMinutiaeExtractionOnly(inputDir: string, outputDir: string, terminator: string, env: Environment)
      returns (stats: Stats)
      ensures var minutiaeDir := JoinPath(outputDir, "minutiae");
              var txtDir := JoinPath(outputDir, "minutiae_txt");
              var extracted := env.extractFolder(inputDir, minutiaeDir, config);
              var converted := AcceptedCount(MinFiles(env.walk(minutiaeDir)), 0.0, 5, terminator);
              stats == map["extracted" := Count(extracted.0), "converted" := Count(converted),
                           "total" := Count(extracted.1),
                           "extraction_rate" := Rate(extracted.0, extracted.1),
                           "conversion_rate" := Rate(converted, extracted.0)]
      ensures terminator == SourceTerminator ==>
                stats["converted"] == Count(0) &&
                (stats["extracted"].n > 0 ==> stats["conversion_rate"] == Ratio(0.0))
    {
      var minutiaeDir := JoinPath(outputDir, "minutiae");
      var txtDir := JoinPath(outputDir, "minutiae_txt");
      var (extractedCount, totalImages) := env.extractFolder(inputDir, minutiaeDir, config);
      var convertedCount, minTotal, txtOutputs := ConvertAllMinutiaeFiles(env.walk(minutiaeDir), txtDir, env.textOutputs,
                                                                           0.0, 5, terminator);
      if terminator == SourceTerminator {
        AsWrittenBatchKeepsNothing(MinFiles(env.walk(minutiaeDir)), txtDir, env.textOutputs, 0.0, 5);
      }
      stats := map["extracted" := Count(extractedCount), "converted" := Count(convertedCount),
                   "total" := Count(totalImages),
                   "extraction_rate" := Rate(extractedCount, totalImages),
                   "conversion_rate" := Rate(convertedCount, extractedCount)];
    }

    /** `run_template_creation_only`: the last stage alone, from `minutiaeDir` into `outputDir`. */
    method RunTemplateCreationOnly(minutiaeDir: string, outputDir: string, templateSize: Size, env: Environment)
      returns (stats: Stats)
      requires templateSize.h > 0 && templateSize.w > 0
      ensures var files := TxtFiles(env.listing(minutiaeDir));
              var created := |SavedPaths(files, outputDir, env.saves)|;
              stats == map["created" := Count(created), "total" := Count(|files|),
                           "success_rate" := Rate(created, |files|)]
    {
      var createdCount, totalFiles, saved := CreateTemplatesFromFolder(env.listing(minutiaeDir), outputDir, templateSize,
                                                                      false, Some(config), env.blur, env.draw, env.saves);
      stats := map["created" := Count(createdCount), "total" := Count(totalFiles),
                   "success_rate" := Rate(createdCount, totalFiles)];
    }
  }

  /** In template creation alone, the success rate is a proper fraction, and 1 exactly when every `.txt` file became a saved template. */
  lemma TemplateCreationRate(files: seq<TxtEntry>, outputDir: string, saves: string -> bool)
    requires files != []
    ensures var rate := Rate(|SavedPaths(files, outputDir, saves)|, |files|).q;
            0.0 <= rate <= 1.0 &&
            (rate == 1.0 <==> forall i :: 0 <= i < |files| ==> Saved(files[i], outputDir, saves))
  {
    SavedPathsBound(files, outputDir, saves);
    RateBounded(|SavedPaths(files, outputDir, saves)|, |files|);
    SavedPathsAll(files, outputDir, saves);
  }
}
