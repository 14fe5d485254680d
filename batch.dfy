/** batch_video_generator.py: runs create_product_video over every SKU folder in sorted
    order, skips SKUs whose video already exists, uploads each new video, and tallies every
    SKU as successful, failed or skipped; the process exits with 0 exactly when nothing
    failed. */
module Batch {
  import opened Raster
  import opened Names
  import ProductVideo

  /** What upload_to_drive did: returned a file id, returned nothing, or raised. */
  datatype Upload = Uploaded(fileId: string) | NotUploaded | UploadRaised

  /** Where a SKU is tallied. */
  datatype Outcome = Succeeded | Failed | Skipped

  /** What create_product_video(sku) gives: the frames of the written video, None when
      there was nothing to make, or the error it raised. */
  type Generated = Result<Option<seq<ProductVideo.Frame>>>

  /** What the file system and the called code do for each SKU name: whether its video is
      already in the output directory, what create_product_video gives, whether the
      returned video file is there afterwards, and what the upload does. */
  datatype Env = Env(present: string -> bool, generate: string -> Generated,
                     saved: string -> bool, upload: string -> Upload)

  /** The fate of one SKU in the loop body: skipped when its video exists; failed when
      create_product_video raises, returns no file, or the file is missing, or when the
      upload raises; successful otherwise, whether or not the upload returned an id. */
  function Classify(env: Env, sku: string): Outcome
  {
    if env.present(sku) then Skipped
    else
      match env.generate(sku)
      case Err(_) => Failed
      case Ok(None) => Failed
      case Ok(Some(_)) =>
        if !env.saved(sku) || env.upload(sku).UploadRaised? then Failed else Succeeded
  }

  /** A processed SKU, in the order the loop reaches it. */
  datatype Step = Step(sku: string, outcome: Outcome)

  /** The SKUs in the order they were processed. */
  function Order(steps: seq<Step>): (skus: seq<string>)
    ensures |skus| == |steps| && forall k :: 0 <= k < |steps| ==> skus[k] == steps[k].sku
  {
    seq(|steps|, k requires 0 <= k < |steps| => steps[k].sku)
  }

  /** How many steps landed on the given outcome. */
  function Count(steps: seq<Step>, o: Outcome): nat {
    if steps == [] then 0
    else Count(steps[..|steps| - 1], o) + (if steps[|steps| - 1].outcome == o then 1 else 0)
  }

  /** batch_generate_videos: the SKU folders sorted by name, then one outcome each, counted
      into successful, failed and skipped. */
  method BatchGenerateVideos(env: Env, folders: seq<string>)
    returns (successful: nat, failed: nat, skipped: nat, steps: seq<Step>)
    ensures Order(steps) == Sort(folders) && Sorted(Order(steps)) && multiset(Order(steps)) == multiset(folders)
    ensures forall k :: 0 <= k < |steps| ==> steps[k].outcome == Classify(env, steps[k].sku)
    ensures successful == Count(steps, Succeeded) && failed == Count(steps, Failed) && skipped == Count(steps, Skipped)
    ensures successful + failed + skipped == |folders|
  {
    var skus := Sort(folders);
    successful, failed, skipped := 0, 0, 0;
    steps := [];
    for idx := 0 to |skus|
      invariant |steps| == idx
      invariant forall k :: 0 <= k < idx ==> steps[k] == Step(skus[k], Classify(env, skus[k]))
      invariant successful == Count(steps, Succeeded) && failed == Count(steps, Failed) && skipped == Count(steps, Skipped)
    {
      var outcome := ProcessSku(env, skus[idx]);
      match outcome {
        case Skipped => skipped := skipped + 1;
        case Failed => failed := failed + 1;
        case Succeeded => successful := successful + 1;
      }
      var step := Step(skus[idx], outcome);
      assert (steps + [step])[..idx] == steps;
      steps := steps + [step];
    }
    assert Order(steps) == skus;
    CountsPartition(steps);
    SortLength(folders);
  }

  /** The loop body for one SKU. */
  method ProcessSku(env: Env, sku: string) returns (outcome: Outcome)
    ensures outcome == Classify(env, sku)
  {
    if env.present(sku) {
      return Skipped;
    }
    var video := env.generate(sku);
    if video.Err? || video.value.None? || !env.saved(sku) {
      return Failed;
    }
    var fileId := env.upload(sku);
    if fileId.UploadRaised? {
      return Failed;
    }
    outcome := Succeeded;
  }

  /** Every step lands on exactly one of the three counters. */
  lemma {:induction false} CountsPartition(steps: seq<Step>)
    ensures Count(steps, Succeeded) + Count(steps, Failed) + Count(steps, Skipped) == |steps|
  {
    if steps != [] {
      CountsPartition(steps[..|steps| - 1]);
    }
  }

  /** A counter stays at zero exactly when no step lands on it. */
  lemma {:induction false} CountZero(steps: seq<Step>, o: Outcome)
    ensures Count(steps, o) == 0 <==> forall k :: 0 <= k < |steps| ==> steps[k].outcome != o
  {
    if steps != [] {
      var init := steps[..|steps| - 1];
      CountZero(init, o);
      assert forall k :: 0 <= k < |init| ==> init[k] == steps[k];
    }
  }

  /** sys.exit(0 if failed == 0 else 1). */
  function ExitStatus(failed: nat): (code: int)
    ensures code == 0 || code == 1
  {
    if failed == 0 then 0 else 1
  }

  /** The batch exits with status 0 exactly when no SKU failed: given the steps the batch
      reports, every folder's SKU was skipped or succeeded. */
  lemma ExitStatusZero(env: Env, folders: seq<string>, steps: seq<Step>)
    requires multiset(Order(steps)) == multiset(folders)
    requires forall k :: 0 <= k < |steps| ==> steps[k].outcome == Classify(env, steps[k].sku)
    ensures ExitStatus(Count(steps, Failed)) == 0 <==> forall s :: s in folders ==> Classify(env, s) != Failed
  {
    CountZero(steps, Failed);
    if Count(steps, Failed) == 0 {
      FoldersNotFailed(env, folders, steps);
    }
    if forall s :: s in folders ==> Classify(env, s) != Failed {
      StepsNotFailed(env, folders, steps);
    }
  }

  lemma FoldersNotFailed(env: Env, folders: seq<string>, steps: seq<Step>)
    requires multiset(Order(steps)) == multiset(folders)
    requires forall k :: 0 <= k < |steps| ==> steps[k].outcome == Classify(env, steps[k].sku)
    requires forall k :: 0 <= k < |steps| ==> steps[k].outcome != Failed
    ensures forall s :: s in folders ==> Classify(env, s) != Failed
  {
    var order := Order(steps);
    forall s | s in folders
      ensures Classify(env, s) != Failed
    {
      assert s in multiset(order);
      var k :| 0 <= k < |order| && order[k] == s;
    }
  }

  lemma StepsNotFailed(env: Env, folders: seq<string>, steps: seq<Step>)
    requires multiset(Order(steps)) == multiset(folders)
    requires forall k :: 0 <= k < |steps| ==> steps[k].outcome == Classify(env, steps[k].sku)
    requires forall s :: s in folders ==> Classify(env, s) != Failed
    ensures forall k :: 0 <= k < |steps| ==> steps[k].outcome != Failed
  {
    var order := Order(steps);
    forall k | 0 <= k < |steps|
      ensures steps[k].outcome != Failed
    {
      assert order[k] in multiset(order);
    }
  }

  /** A SKU whose video already exists is skipped whatever generating or uploading it
      would do. */
  lemma ExistingIsSkipped(env: Env, env': Env, sku: string)
    requires env.present(sku) && env'.present == env.present
    ensures Classify(env, sku) == Skipped && Classify(env', sku) == Skipped
  {
  }

  /** Once a video has been created and saved, the SKU counts as successful whether or not
      the upload returned a file id; only an upload that raises makes it fail. */
  lemma UploadDoesNotDecide(env: Env, sku: string)
    requires !env.present(sku) && env.saved(sku)
    requires env.generate(sku).Ok? && env.generate(sku).value.Some?
    ensures Classify(env, sku) == Succeeded <==> !env.upload(sku).UploadRaised?
    ensures Classify(env, sku) == Failed <==> env.upload(sku).UploadRaised?
  {
  }

  /** A new SKU whose folder is missing or holds no usable crop makes create_product_video
      return None (its world w and folder listing given), so it counts as failed. */
  lemma NoCropsFails(env: Env, sku: string, w: ProductVideo.World, folder: Option<seq<string>>)
    requires ProductVideo.WorldValid(w) && env.generate(sku) == ProductVideo.Video(w, folder)
    requires !env.present(sku) && (folder.None? || ProductVideo.CropFiles(folder.value) == [])
    ensures Classify(env, sku) == Failed
  {
    ProductVideo.NoVideo(w, folder);
  }
}
