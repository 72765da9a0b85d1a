# Sign-language data collection, modelled in Dafny

`python/data_collect.py` records a dataset of hand-sign videos as keypoint
vectors. For every word of a fixed list, every recording sequence and every
frame, it does four things:

- it reads a camera frame and runs the MediaPipe holistic detector on it;
- it encodes the detection as one flat vector of coordinates
  (`extract_keypoints`);
- it saves that vector at `data_set/<word>/<sequence>/<frame>`;
- it lets the operator press 'q' to cut the current sequence short.

Before capture, a module-level loop creates one directory per word and
sequence and swallows every error.

This project models three parts of that script:

- **`Keypoints`** (`keypoints.dfy`) models the encoder as a pure function.
  - A present landmark set is flattened row-major: four values per point for
    the pose, three for the face and both hands.
  - An absent set becomes a zero block of 132, 1404 or 63 values.
  - The four blocks are concatenated as pose, face, left hand, right hand.
  - A decoder, `DecodeKeypoints`, is the partner used to state what the
    layout means: the two round trips, and that the vector determines the
    detection up to what it drops.
  - The encoder is a function, so equal detections give equal vectors and
    nothing else is touched.
- **`DataSet`** (`dataset.dfy`) models the dataset directory.
  - Paths are lists of components.
  - Python's `str` of a non-negative int is `NatToString`, proved injective
    through its parser.
  - `FileStore` is a class whose fields are the directories and the saved
    vectors. `MakeDirs` stands for `os.makedirs` and `Save` for `np.save`.
- **`Capture`** (`capture.dfy`) models the setup loop and the three nested
  loops of `get_data` as methods with loops.
  - They run over a `FileStore`.
  - The camera and detector are a function `detect` from a visit
    (word, sequence, frame) to its detection.
  - The 'q' key is a predicate `quit` on visits.
  - Each capture method is proved against `RunVisits`, the list of frames a
    run saves, in order. Lemmas say:
    - which frames are in that list;
    - that it follows word, sequence, frame order;
    - that without 'q' it has words × sequences × frames entries;
    - that its paths are distinct;
    - that a 'q' only ends its own sequence.

`Wrappers` (`wrappers.dfy`) holds the `Option` type used for a landmark set
the detector may not report.

## Model

| member | source | states |
|---|---|---|
| Keypoints.ExtractKeypoints | python/data_collect.py:45-54 | The vector is as long as the four slots together, and 1662 long whenever every present set has the detector's point count |
| Keypoints.PoseSlot | python/data_collect.py:46-47 | An absent pose gives 132 zeros; a present pose gives 4 values per point |
| Keypoints.XyzSlot | python/data_collect.py:48-53 | An absent face or hand gives its fixed-width zero block; a present one gives 3 values per point |
| Keypoints.Zeros | python/data_collect.py:47 | `np.zeros(n)`: n values, all 0 |
| Keypoints.FlattenPose | python/data_collect.py:46-47 | Flattening pose points gives 4 values per point |
| Keypoints.FlattenXyz | python/data_collect.py:48-53 | Flattening face or hand points gives 3 values per point |
| Keypoints.FlattenPoseAt | python/data_collect.py:46-47 | Point i of the pose is x, y, z, visibility at positions 4i .. 4i+3 of its flattening |
| Keypoints.FlattenXyzAt | python/data_collect.py:48-53 | Point i of a face or hand is x, y, z at positions 3i .. 3i+2 of its flattening |
| Keypoints.SlotOrder | python/data_collect.py:54 | The vector splits at the slot boundaries into pose, face, left hand and right hand, in that order |
| Keypoints.AbsentSlotIsZero | python/data_collect.py:46-54 | Each absent set leaves a slot of exactly its fixed width (132, 1404, 63, 63), all zeros, at its place in the vector |
| Keypoints.PresentSlotIsRowMajor | python/data_collect.py:46-54 | Each present set's point i sits in the vector at its slot's start plus 4i (pose) or 3i (face, hands), coordinates in order |
| Keypoints.SlotsOccur | python/data_collect.py:54 | Each slot appears element by element in the vector from its offset on |
| Keypoints.PoseRowsIn | python/data_collect.py:46-47 | Flattened pose points inside a vector put point i at the block start plus 4i |
| Keypoints.XyzRowsIn | python/data_collect.py:48-53 | Flattened face or hand points inside a vector put point i at the block start plus 3i |
| Keypoints.FixedLayout | python/data_collect.py:45-54 | With 33/468/21/21 points, in all 16 present/absent combinations, the vector has 1662 values and its slots start at 0, 132, 1536 and 1599 |
| Keypoints.OnlyPoseDetected | python/data_collect.py:45-54 | A frame with only a pose gives its flattened pose followed by 1530 zeros |
| Keypoints.DecodeKeypoints | python/data_collect.py:45-54 | The inverse of the encoder: accepts exactly the vectors of length 1662, and returns a well-formed detection with every set present |
| Keypoints.DecodeExtract | python/data_collect.py:45-54 | Decoding the vector of a well-formed detection gives the detection back, with absent sets as all-zero points and face/hand visibility as 0 |
| Keypoints.ExtractDecode | python/data_collect.py:45-54 | Encoding the decoding of a vector of length 1662 gives the vector back |
| Keypoints.ExtractCanonical | python/data_collect.py:45-54 | Zero fill makes an absent set encode like a present set of zero points: a detection and its canonical form give the same vector |
| Keypoints.ExtractDeterminesCanonical | python/data_collect.py:45-54 | Two well-formed detections give the same vector if and only if they agree on everything the vector keeps |
| Keypoints.UnflattenFlattenPose | python/data_collect.py:46-47 | Unflattening flattened pose points gives them back |
| Keypoints.UnflattenFlattenXyz | python/data_collect.py:48-53 | Unflattening flattened face or hand points gives them back without visibility |
| Keypoints.FlattenUnflattenPose | python/data_collect.py:46-47 | Flattening the unflattening of a sequence of length 4k gives the sequence back: every value is kept |
| Keypoints.FlattenUnflattenXyz | python/data_collect.py:48-53 | Flattening the unflattening of a sequence of length 3k gives the sequence back: every value is kept |
| DataSet.Prefixes | python/data_collect.py:65 | The directories `os.makedirs` creates for a path: the path itself and every leading part of it |
| DataSet.NatToString | python/data_collect.py:65 | `str(n)` is a string of decimal digits |
| DataSet.NatToStringNoLeadingZero | python/data_collect.py:65 | `str(n)` is non-empty and starts with '0' only for n = 0, which gives "0" |
| DataSet.ParseNatToString | python/data_collect.py:94 | Reading `str(n)` back as a decimal number gives n |
| DataSet.NatToStringInjective | python/data_collect.py:94 | `str(a) == str(b)` if and only if a = b |
| DataSet.FileStore.MakeDirs | python/data_collect.py:65-67 | An existing directory raises FileExistsError; a path one of whose missing directories is refused raises an error; otherwise it succeeds. Either way every leading directory up to the first refused one is created, no refused directory is ever created, and recorded directories stay closed under prefixes |
| DataSet.ReachedProperties | python/data_collect.py:65 | `os.makedirs` reaches the path itself exactly when nothing on its way is refused; what it reaches is closed under leading parts and holds no refused directory that did not already exist |
| DataSet.BlockedExtends | python/data_collect.py:65 | If a leading part of a path is blocked by a refused missing directory, so is the whole path |
| DataSet.ReachedSame | python/data_collect.py:65 | What `os.makedirs` creates depends on the existing directories only through the refused ones |
| DataSet.FileStore.Save | python/data_collect.py:95 | The save succeeds exactly when the file's directory exists; it then stores the vector at that path and logs the write, otherwise nothing changes |
| Capture.SequenceDir | python/data_collect.py:65 | `data_set/word/str(sequence)` has three components |
| Capture.FramePath | python/data_collect.py:94 | `data_set/word/str(sequence)/str(frame)` has four components, and its directory is the sequence directory |
| Capture.FramePathInjective | python/data_collect.py:94 | With distinct words, two visits share a save path if and only if they are the same visit |
| Capture.SetupDirectories | python/data_collect.py:62-67 | After the setup loop the directories are the old ones plus those created for each (word, sequence) in turn, every error swallowed |
| Capture.SetupCreatesSequenceDirs | python/data_collect.py:62-67 | After setup, a sequence directory exists if and only if it existed before or none of its missing directories (root, word, sequence) is refused |
| Capture.CreatedBeforeRefuses | python/data_collect.py:64-67 | A directory with a refused missing directory on its way is never created by the loop |
| Capture.CreatedBeforeCreates | python/data_collect.py:62-67 | Every sequence directory the loop has passed whose missing directories are all allowed has been created |
| Capture.CreatedBeforeKeepsRefused | python/data_collect.py:62-67 | The setup loop never creates a refused directory |
| Capture.CreatedBeforeSame | python/data_collect.py:62-67 | Starting directories that agree on the refused ones lead the loop to create the same directories |
| Capture.SetupIdempotent | python/data_collect.py:62-67 | Running the setup loop again changes nothing |
| Capture.SavedCountFrom | python/data_collect.py:75-97 | From frame f on, the frame loop saves between 1 and n - f frames while frames are left, and none otherwise |
| Capture.SavedCountStops | python/data_collect.py:95-97 | Only a 'q' stops the frame loop early: none followed the saved frames before the last, and one followed the last when frames were left |
| Capture.SavedWithoutQuit | python/data_collect.py:75-97 | Without a 'q' the frame loop saves every frame |
| Capture.SavedUntilQuit | python/data_collect.py:95-97 | A first 'q' after frame f leaves frames 0 .. f saved |
| Capture.SavedFramesMembers | python/data_collect.py:75-97 | A frame of a sequence is saved if and only if it is in range and no 'q' followed an earlier frame of that sequence |
| Capture.Frames | python/data_collect.py:75 | `range(n)` of frames: n visits, frame i at position i |
| Capture.VisitsBefore | python/data_collect.py:73-75 | Every visit saved before sequence (w, s) is in range |
| Capture.VisitsBeforeMembers | python/data_collect.py:73-97 | A visit is saved before (w, s) if and only if it is in range, belongs to an earlier sequence, and no 'q' followed an earlier frame of its sequence |
| Capture.VisitsBeforeBounded | python/data_collect.py:73-75 | Every visit saved before (w, s) belongs to an earlier sequence |
| Capture.VisitsBeforeOrdered | python/data_collect.py:73-75 | The visits saved before (w, s) are in word, sequence, frame order |
| Capture.VisitsBeforeCount | python/data_collect.py:73-75 | Without a 'q', (w · sequences + s) · frames visits are saved before (w, s) |
| Capture.RunVisitsMembers | python/data_collect.py:73-97 | A run saves a frame if and only if it is in range and no 'q' followed an earlier frame of its sequence |
| Capture.QuitEndsOnlyItsSequence | python/data_collect.py:93-97 | A 'q' after frame k saves frame k and skips the later frames of that sequence; every other sequence is saved as if the key had not been pressed |
| Capture.RunVisitsOrdered | python/data_collect.py:73-75 | A run saves word by word, sequence by sequence, frame by frame, never the same visit twice |
| Capture.RunVisitsCount | python/data_collect.py:73-75 | Without a 'q', a run saves words × sequences × frames vectors |
| Capture.RunPathsDistinct | python/data_collect.py:94-95 | With distinct words, no two saves of a run go to the same path |
| Capture.SourceConfigRun | python/data_collect.py:57-60 | The script's five words are distinct; without a 'q' it saves 5 × 30 × 30 = 4500 vectors |
| Capture.PathsOf | python/data_collect.py:94 | The list of save paths has one path per saved visit |
| Capture.PathsOfAt | python/data_collect.py:94 | The i-th logged path is the path of the i-th saved visit |
| Capture.StoreAllHolds | python/data_collect.py:93-95 | A saved visit whose path no later save reuses leaves its own vector at that path |
| Capture.RunStoresEachFrame | python/data_collect.py:93-95 | After a run with distinct words, the file of every saved frame holds `extract_keypoints` of that frame's detection |
| Capture.SaveFrame | python/data_collect.py:93-95 | One frame: its vector is saved at its path exactly when the sequence directory exists, extending the files and the write log by that frame; otherwise nothing changes |
| Capture.CaptureSequence | python/data_collect.py:75-97 | The frame loop saves exactly the frames of the sequence before the first 'q', in order, or raises on a missing directory before saving anything |
| Capture.CaptureNextSequence | python/data_collect.py:74-97 | One pass of the sequence loop extends what the earlier sequences saved by this sequence's saved frames |
| Capture.CaptureWord | python/data_collect.py:74-97 | The sequence loop of one word saves every sequence's frames in turn, or stops at the first sequence whose directory is missing, with everything before it saved |
| Capture.GetData | python/data_collect.py:70-97 | `get_data` saves exactly the visits of `RunVisits`, in order, when every sequence directory exists; otherwise it stops at the first missing one, with every earlier visit saved |
| Capture.CollectDataSet | python/data_collect.py:62-67 | The script (setup loop, then `get_data` at line 102) leaves the directories of the setup loop; it succeeds if and only if every sequence directory existed or no missing directory on its way was refused, and then saves exactly `RunVisits`; otherwise it stops at the first missing sequence directory with every earlier visit saved |
| Capture.StoreAllAppend | python/data_collect.py:93-95 | Saving a then b equals saving a + b |
| Capture.PathsOfAppend | python/data_collect.py:94 | The paths of a + b are the paths of a followed by those of b |

## Left out

- Camera capture, mirroring and colour conversion (lines 11-16, 71, 76-77) are device I/O. They, the MediaPipe model (lines 13, 72) and the unchecked `ret` of `cap.read` are replaced by the parameter `detect`. It gives the detection of the frame read at each visit.
- Drawing, overlays and `imshow` (lines 19-42, 79-92) only affect the screen. The `waitKey(3000)` pauses at lines 81, 85 and 92 also read the keyboard and throw the key away, so a 'q' pressed during the frame-0 and last-frame pauses never reaches the poll at line 96. The model does not follow individual key presses: `quit(v)` is exactly what the poll at line 96 returns after the save of visit v.
- `cap.release` and `cv2.destroyAllWindows` (lines 98-99) release devices and are not modelled.
- The `.npy` file format and the suffix `np.save` appends are not modelled. A path is the list of the components `os.path.join` is given, and a saved file is the vector itself.
- Capture.DistinctWords: two paths are the same file exactly when their component lists are equal. `os.path.join` does not normalise, and a filesystem may ignore case, so the path lemmas (`FramePathInjective`, `RunPathsDistinct`, `RunStoresEachFrame`) carry over to disk only for words that are non-empty, contain no path separator, are not "." or "..", and differ in more than case. The script's own five words (line 58) meet this; `DistinctWords` itself only asks that the words differ.
- Coordinates are `real`: the script only copies them, so floating-point rounding plays no part.
- Keypoints.FixedLayout: the 1662-value layout holds only when every present set has 33, 468 or 21 points. The script never checks these counts; for other counts the model still computes the vector, whose slot offsets are then `FaceStart`, `LeftHandStart` and `RightHandStart`.
- DataSet.FileStore.MakeDirs: which directories the system refuses is fixed in advance (`forbidden`), and the error's exact cause (permission, bad name, full disk) is not distinguished, since the bare `except` swallows all of them.
- DataSet.FileStore.Save: the only failure modelled is a missing directory. Other write errors (full disk, permissions on the file) are not.
- Capture.CaptureWord: which sequence failed is a ghost out-parameter. It says where `get_data` stopped, but it is not part of what the code computes.
