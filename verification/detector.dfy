/**
 * Which detection models the application loads at start-up: the fine-tuned
 * door model when its file is usable, the pretrained YOLOv8 nano model
 * otherwise, and the nano model again for the general feed.
 */
module Detector {

  const TrainedModelPath: string := "trained_door_model.pt"
  const FallbackModel: string := "yolov8n.pt"

  /** What the file system reports about the trained model's path. */
  datatype ModelFile = ModelFile(present: bool, size: nat)

  /**
   * The outcome of loading the door model: the model paths handed to the
   * loader in call order, and the one the door feed ends up using.
   */
  datatype DoorLoad = DoorLoad(attempts: seq<string>, door: string)

  /** The two models the detection feeds use. */
  datatype Models = Models(door: string, regular: string)

  /** The trained file is tried only when it exists and is non-empty. */
  predicate Usable(file: ModelFile) {
    file.present && file.size > 0
  }

  /**
   * Start-up choice of the door model. `trainedLoads` is whether the loader
   * accepts the trained file; it is consulted only when the file is usable.
   */
  function LoadDoorModel(file: ModelFile, trainedLoads: bool): (r: DoorLoad)
    ensures r.door == TrainedModelPath <==> Usable(file) && trainedLoads
    ensures r.door != TrainedModelPath ==> r.door == FallbackModel
    ensures |r.attempts| == (if Usable(file) && !trainedLoads then 2 else 1)
    ensures r.attempts[0] == (if Usable(file) then TrainedModelPath else FallbackModel)
    ensures r.attempts[|r.attempts| - 1] == r.door
    ensures TrainedModelPath in r.attempts <==> Usable(file)
    ensures forall i :: 0 <= i < |r.attempts| ==> r.attempts[i] in {TrainedModelPath, FallbackModel}
  {
    if file.present && file.size > 0 then
      if trainedLoads then DoorLoad([TrainedModelPath], TrainedModelPath)
      else DoorLoad([TrainedModelPath, FallbackModel], FallbackModel)
    else DoorLoad([FallbackModel], FallbackModel)
  }

  /** Both models: the door model as chosen above, and the nano model for the general feed. */
  function LoadModels(file: ModelFile, trainedLoads: bool): (m: Models)
    ensures m.regular == FallbackModel
    ensures m.door == TrainedModelPath <==> Usable(file) && trainedLoads
    ensures m.door in {TrainedModelPath, FallbackModel}
  {
    Models(LoadDoorModel(file, trainedLoads).door, FallbackModel)
  }

  /** Without a usable, loadable trained file both feeds run the same model. */
  lemma FallbackSharesModel(file: ModelFile, trainedLoads: bool)
    ensures LoadModels(file, trainedLoads).door == LoadModels(file, trainedLoads).regular
            <==> !(Usable(file) && trainedLoads)
  {
  }
}
