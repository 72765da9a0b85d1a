/**
 * The data-collection script: the loop that creates one directory per
 * (word, sequence), and the capture loop that visits every frame of every
 * sequence of every word, encodes the detector's result and saves it at
 * root/word/sequence/frame.
 *
 * The camera and the detector are the function `detect`, which gives the
 * detection of the frame read at a visit; the operator's 'q' key is the
 * predicate `quit`, true when 'q' is pressed right after a visit's frame is
 * saved. The filesystem is a FileStore.
 *
 * The capture loop is proved against RunVisits, the list of frames it saves
 * in order; the lemmas below state what that list is: which frames, in which
 * order, how many, at which paths.
 */
module Capture {
  import opened Wrappers
  import opened Keypoints
  import opened DataSet

  /** The script's configuration: dataset root, word labels, sequences per word, frames per sequence. */
  datatype Config = Config(root: string, words: seq<string>, sequences: nat, frames: nat)

  const SourceConfig := Config("data_set", ["Rahmat", "Togri", "Birgalikda", "Hamma", "Faqat"], 30, 30)

  /** One pass of the frame loop: the word by its position in the list, the sequence, the frame. */
  datatype Visit = Visit(word: nat, sequence: nat, frame: nat)

  predicate InRange(cfg: Config, v: Visit) {
    v.word < |cfg.words| && v.sequence < cfg.sequences && v.frame < cfg.frames
  }

  predicate DistinctWords(cfg: Config) {
    forall i, j :: 0 <= i < j < |cfg.words| ==> cfg.words[i] != cfg.words[j]
  }

  /** Sequence (w, s) comes before sequence (w', s') in the loops' order. */
  predicate LexBefore(w: nat, s: nat, w': nat, s': nat) {
    w < w' || (w == w' && s < s')
  }

  /** Visit a comes before visit b in the loops' order: word outer, sequence middle, frame inner. */
  predicate Precedes(a: Visit, b: Visit) {
    LexBefore(a.word, a.sequence, b.word, b.sequence)
    || (a.word == b.word && a.sequence == b.sequence && a.frame < b.frame)
  }

  predicate Ordered(vs: seq<Visit>) {
    forall i, j :: 0 <= i < j < |vs| ==> Precedes(vs[i], vs[j])
  }

  // ----- Paths -----

  /** root/word/str(sequence): the directory of one recording sequence. */
  function SequenceDir(cfg: Config, w: nat, s: nat): (p: Path)
    requires w < |cfg.words|
    ensures |p| == 3
  {
    [cfg.root, cfg.words[w], NatToString(s)]
  }

  /** root/word/str(sequence)/str(frame): where the vector of one frame is saved. */
  function FramePath(cfg: Config, v: Visit): (p: Path)
    requires v.word < |cfg.words|
    ensures |p| == 4 && Parent(p) == SequenceDir(cfg, v.word, v.sequence)
  {
    SequenceDir(cfg, v.word, v.sequence) + [NatToString(v.frame)]
  }

  /** With distinct words, distinct visits are saved at distinct paths. */
  lemma {:induction false} FramePathInjective(cfg: Config, a: Visit, b: Visit)
    requires DistinctWords(cfg) && a.word < |cfg.words| && b.word < |cfg.words|
    ensures FramePath(cfg, a) == FramePath(cfg, b) <==> a == b
  {
    if FramePath(cfg, a) == FramePath(cfg, b) {
      var p, q := FramePath(cfg, a), FramePath(cfg, b);
      assert p[1] == q[1] && p[2] == q[2] && p[3] == q[3];
      NatToStringInjective(a.sequence, b.sequence);
      NatToStringInjective(a.frame, b.frame);
    }
  }

  // ----- Directory setup -----

  /** Well-formed position of the setup and capture loops: (w, s) with s = 0 once the words are done. */
  predicate Position(cfg: Config, w: nat, s: nat) {
    w <= |cfg.words| && s <= cfg.sequences && (w == |cfg.words| ==> s == 0)
  }

  /**
   * Directories the setup loop has created once it has handled every sequence
   * before (w, s), starting from `dirs`. Each call reaches what it would have
   * reached from `dirs`, since no call creates a refused directory.
   */
  function CreatedBefore(cfg: Config, dirs: set<Path>, forbidden: set<Path>, w: nat, s: nat): set<Path>
    requires Position(cfg, w, s)
    decreases w, s
  {
    if s > 0 then CreatedBefore(cfg, dirs, forbidden, w, s - 1) + Reached(SequenceDir(cfg, w, s - 1), dirs, forbidden)
    else if w > 0 then CreatedBefore(cfg, dirs, forbidden, w - 1, cfg.sequences)
    else {}
  }

  /** The directories after the setup loop, starting from `dirs`. */
  function SetupDirs(dirs: set<Path>, cfg: Config, forbidden: set<Path>): set<Path> {
    dirs + CreatedBefore(cfg, dirs, forbidden, |cfg.words|, 0)
  }

  /**
   * The setup loop: os.makedirs(root/word/str(sequence)) for every word and
   * sequence, every error (existing directory, refused creation) swallowed.
   */
  method SetupDirectories(store: FileStore, cfg: Config)
    requires store.Valid()
    modifies store`dirs
    ensures store.Valid()
    ensures store.dirs == SetupDirs(old(store.dirs), cfg, store.forbidden)
  {
    for w := 0 to |cfg.words|
      invariant store.Valid()
      invariant store.dirs == old(store.dirs) + CreatedBefore(cfg, old(store.dirs), store.forbidden, w, 0)
      invariant forall q :: q in store.forbidden ==> (q in store.dirs <==> q in old(store.dirs))
    {
      for s := 0 to cfg.sequences
        invariant store.Valid()
        invariant store.dirs == old(store.dirs) + CreatedBefore(cfg, old(store.dirs), store.forbidden, w, s)
        invariant forall q :: q in store.forbidden ==> (q in store.dirs <==> q in old(store.dirs))
      {
        var p := SequenceDir(cfg, w, s);
        ReachedSame(p, store.dirs, old(store.dirs), store.forbidden);
        var _ := store.MakeDirs(p);
      }
    }
  }

  /** A sequence directory that a refused directory above it blocks is never created by the setup loop. */
  lemma {:induction false} CreatedBeforeRefuses(cfg: Config, dirs: set<Path>, forbidden: set<Path>, w: nat, s: nat, p: Path)
    requires Position(cfg, w, s)
    requires p != [] && Blocked(p, dirs, forbidden)
    ensures p !in CreatedBefore(cfg, dirs, forbidden, w, s)
    decreases w, s
  {
    if s > 0 {
      CreatedBeforeRefuses(cfg, dirs, forbidden, w, s - 1, p);
    } else if w > 0 {
      CreatedBeforeRefuses(cfg, dirs, forbidden, w - 1, cfg.sequences, p);
    }
  }

  /** Every sequence directory handled before (w, s) that nothing above it blocks has been created. */
  lemma {:induction false} CreatedBeforeCreates(cfg: Config, dirs: set<Path>, forbidden: set<Path>, w: nat, s: nat, w': nat, s': nat)
    requires Position(cfg, w, s)
    requires w' < |cfg.words| && s' < cfg.sequences && LexBefore(w', s', w, s)
    requires !Blocked(SequenceDir(cfg, w', s'), dirs, forbidden)
    ensures SequenceDir(cfg, w', s') in CreatedBefore(cfg, dirs, forbidden, w, s)
    decreases w, s
  {
    if s > 0 {
      if w' == w && s' == s - 1 {
        ReachedProperties(SequenceDir(cfg, w', s'), dirs, forbidden);
      } else {
        CreatedBeforeCreates(cfg, dirs, forbidden, w, s - 1, w', s');
      }
    } else {
      CreatedBeforeCreates(cfg, dirs, forbidden, w - 1, cfg.sequences, w', s');
    }
  }

  /**
   * After setup, the directory of every sequence exists exactly when it
   * existed before or no missing directory on its way is refused.
   */
  lemma {:induction false} SetupCreatesSequenceDirs(dirs: set<Path>, cfg: Config, forbidden: set<Path>, w: nat, s: nat)
    requires w < |cfg.words| && s < cfg.sequences
    ensures SequenceDir(cfg, w, s) in SetupDirs(dirs, cfg, forbidden)
            <==> SequenceDir(cfg, w, s) in dirs || !Blocked(SequenceDir(cfg, w, s), dirs, forbidden)
  {
    var p := SequenceDir(cfg, w, s);
    if Blocked(p, dirs, forbidden) {
      CreatedBeforeRefuses(cfg, dirs, forbidden, |cfg.words|, 0, p);
    } else {
      CreatedBeforeCreates(cfg, dirs, forbidden, |cfg.words|, 0, w, s);
    }
  }

  /** The setup loop never creates a refused directory. */
  lemma {:induction false} CreatedBeforeKeepsRefused(cfg: Config, dirs: set<Path>, forbidden: set<Path>, w: nat, s: nat)
    requires Position(cfg, w, s)
    ensures forall q :: q in CreatedBefore(cfg, dirs, forbidden, w, s) && q in forbidden ==> q in dirs
    decreases w, s
  {
    if s > 0 {
      CreatedBeforeKeepsRefused(cfg, dirs, forbidden, w, s - 1);
      ReachedProperties(SequenceDir(cfg, w, s - 1), dirs, forbidden);
    } else if w > 0 {
      CreatedBeforeKeepsRefused(cfg, dirs, forbidden, w - 1, cfg.sequences);
    }
  }

  /** Starting directories that agree on the refused ones give the same creations. */
  lemma {:induction false} CreatedBeforeSame(cfg: Config, d1: set<Path>, d2: set<Path>, forbidden: set<Path>, w: nat, s: nat)
    requires Position(cfg, w, s)
    requires forall q :: q in forbidden ==> (q in d1 <==> q in d2)
    ensures CreatedBefore(cfg, d1, forbidden, w, s) == CreatedBefore(cfg, d2, forbidden, w, s)
    decreases w, s
  {
    if s > 0 {
      CreatedBeforeSame(cfg, d1, d2, forbidden, w, s - 1);
      ReachedSame(SequenceDir(cfg, w, s - 1), d1, d2, forbidden);
    } else if w > 0 {
      CreatedBeforeSame(cfg, d1, d2, forbidden, w - 1, cfg.sequences);
    }
  }

  /** Running the setup loop a second time changes nothing. */
  lemma {:induction false} SetupIdempotent(dirs: set<Path>, cfg: Config, forbidden: set<Path>)
    ensures SetupDirs(SetupDirs(dirs, cfg, forbidden), cfg, forbidden) == SetupDirs(dirs, cfg, forbidden)
  {
    CreatedBeforeKeepsRefused(cfg, dirs, forbidden, |cfg.words|, 0);
    CreatedBeforeSame(cfg, SetupDirs(dirs, cfg, forbidden), dirs, forbidden, |cfg.words|, 0);
  }

  // ----- The frames the capture loop saves -----

  /** No 'q' was pressed after any of the first f frames of sequence s of word w. */
  predicate NoQuitBefore(quit: Visit -> bool, w: nat, s: nat, f: nat) {
    forall g :: 0 <= g < f ==> !quit(Visit(w, s, g))
  }

  /**
   * How many frames the frame loop saves from frame f on, out of n: it saves
   * frame f and stops there when 'q' follows, otherwise it goes on with
   * frame f + 1.
   */
  function SavedCountFrom(quit: Visit -> bool, w: nat, s: nat, f: nat, n: nat): (c: nat)
    ensures f < n ==> 1 <= c <= n - f
    ensures f >= n ==> c == 0
    decreases n - f
  {
    if f >= n then 0
    else if quit(Visit(w, s, f)) then 1
    else 1 + SavedCountFrom(quit, w, s, f + 1, n)
  }

  /** How many frames of sequence s of word w are saved, out of n. */
  function SavedCount(quit: Visit -> bool, w: nat, s: nat, n: nat): (c: nat)
    ensures c <= n
  {
    SavedCountFrom(quit, w, s, 0, n)
  }

  /** Frames 0 .. n - 1 of sequence s of word w, in order. */
  function Frames(w: nat, s: nat, n: nat): (vs: seq<Visit>)
    ensures |vs| == n
    ensures forall i :: 0 <= i < n ==> vs[i] == Visit(w, s, i)
  {
    if n == 0 then [] else Frames(w, s, n - 1) + [Visit(w, s, n - 1)]
  }

  /** The frames of sequence s of word w that are saved, out of n, in order: the first SavedCount. */
  function SavedFrames(quit: Visit -> bool, w: nat, s: nat, n: nat): (vs: seq<Visit>)
    ensures |vs| <= n
  {
    Frames(w, s, SavedCount(quit, w, s, n))
  }

  /**
   * The frame loop stops early only because of a 'q': none followed the
   * frames before the last one saved, and one followed the last when frames
   * were left.
   */
  lemma {:induction false} SavedCountStops(quit: Visit -> bool, w: nat, s: nat, f: nat, n: nat)
    ensures var c := SavedCountFrom(quit, w, s, f, n);
      && (forall g :: f <= g < f + c - 1 ==> !quit(Visit(w, s, g)))
      && (0 < c && f + c < n ==> quit(Visit(w, s, f + c - 1)))
    decreases n - f
  {
    if f < n && !quit(Visit(w, s, f)) {
      SavedCountStops(quit, w, s, f + 1, n);
    }
  }

  lemma NoQuitNext(quit: Visit -> bool, w: nat, s: nat, f: nat, next: nat)
    requires NoQuitBefore(quit, w, s, f) && !quit(Visit(w, s, f)) && next == f + 1
    ensures NoQuitBefore(quit, w, s, next)
  {
  }

  /** Without a 'q', the frame loop saves all n frames. */
  lemma {:induction false} SavedWithoutQuit(quit: Visit -> bool, w: nat, s: nat, n: nat)
    ensures NoQuitBefore(quit, w, s, n) ==> SavedCount(quit, w, s, n) == n
  {
    SavedCountStops(quit, w, s, 0, n);
  }

  /** A 'q' after frame f, the first of the sequence, stops the loop with frames 0 .. f saved. */
  lemma {:induction false} SavedUntilQuit(quit: Visit -> bool, w: nat, s: nat, f: nat, n: nat)
    requires f < n && NoQuitBefore(quit, w, s, f) && quit(Visit(w, s, f))
    ensures SavedCount(quit, w, s, n) == f + 1
  {
    SavedCountStops(quit, w, s, 0, n);
  }

  /** Frame f of a sequence is saved exactly when 'q' did not follow an earlier frame of it. */
  lemma {:induction false} SavedFramesMembers(quit: Visit -> bool, w: nat, s: nat, n: nat)
    ensures forall v :: v in SavedFrames(quit, w, s, n) <==>
      v.word == w && v.sequence == s && v.frame < n && NoQuitBefore(quit, w, s, v.frame)
  {
    var vs := SavedFrames(quit, w, s, n);
    SavedCountStops(quit, w, s, 0, n);
    forall v: Visit | v.word == w && v.sequence == s && v.frame < n && NoQuitBefore(quit, w, s, v.frame)
      ensures v in vs
    {
      assert vs[v.frame] == v;
    }
  }

  /** The frames the capture loop saves for the sequences before (w, s), in order. */
  function VisitsBefore(cfg: Config, quit: Visit -> bool, w: nat, s: nat): (vs: seq<Visit>)
    requires Position(cfg, w, s)
    ensures forall i :: 0 <= i < |vs| ==> InRange(cfg, vs[i])
    decreases w, s
  {
    if s > 0 then VisitsBefore(cfg, quit, w, s - 1) + SavedFrames(quit, w, s - 1, cfg.frames)
    else if w > 0 then VisitsBefore(cfg, quit, w - 1, cfg.sequences)
    else []
  }

  /** Every frame a whole run of the capture loop saves, in the order it saves them. */
  function RunVisits(cfg: Config, quit: Visit -> bool): seq<Visit> {
    VisitsBefore(cfg, quit, |cfg.words|, 0)
  }

  lemma {:induction false} VisitsBeforeMembers(cfg: Config, quit: Visit -> bool, w: nat, s: nat)
    requires Position(cfg, w, s)
    ensures forall v :: v in VisitsBefore(cfg, quit, w, s) <==>
      InRange(cfg, v) && LexBefore(v.word, v.sequence, w, s) && NoQuitBefore(quit, v.word, v.sequence, v.frame)
    decreases w, s
  {
    if s > 0 {
      VisitsBeforeMembers(cfg, quit, w, s - 1);
      SavedFramesMembers(quit, w, s - 1, cfg.frames);
    } else if w > 0 {
      VisitsBeforeMembers(cfg, quit, w - 1, cfg.sequences);
    }
  }

  /**
   * A frame is saved exactly when it is in range and 'q' was not pressed
   * after an earlier frame of the same sequence: a 'q' cuts short only its
   * own sequence, and the frame it follows has been saved.
   */
  lemma {:induction false} RunVisitsMembers(cfg: Config, quit: Visit -> bool, v: Visit)
    ensures v in RunVisits(cfg, quit) <==> InRange(cfg, v) && NoQuitBefore(quit, v.word, v.sequence, v.frame)
  {
    VisitsBeforeMembers(cfg, quit, |cfg.words|, 0);
  }

  /**
   * 'q' after frame k of sequence s of word w: frame k is saved, the later
   * frames of that sequence are not, and every other sequence is captured as
   * if the key had not been pressed.
   */
  lemma {:induction false} QuitEndsOnlyItsSequence(cfg: Config, quit: Visit -> bool, w: nat, s: nat, k: nat)
    requires w < |cfg.words| && s < cfg.sequences && k < cfg.frames
    requires quit(Visit(w, s, k)) && NoQuitBefore(quit, w, s, k)
    ensures Visit(w, s, k) in RunVisits(cfg, quit)
    ensures forall f :: k < f ==> Visit(w, s, f) !in RunVisits(cfg, quit)
    ensures forall v: Visit :: (v.word != w || v.sequence != s) ==>
      (v in RunVisits(cfg, quit) <==> v in RunVisits(cfg, Resume(quit, w, s)))
  {
    VisitsBeforeMembers(cfg, quit, |cfg.words|, 0);
    VisitsBeforeMembers(cfg, Resume(quit, w, s), |cfg.words|, 0);
  }

  /** The same key presses with none during sequence s of word w. */
  function Resume(quit: Visit -> bool, w: nat, s: nat): Visit -> bool {
    (v: Visit) => if v.word == w && v.sequence == s then false else quit(v)
  }

  lemma {:induction false} OrderedConcat(a: seq<Visit>, b: seq<Visit>)
    requires Ordered(a) && Ordered(b)
    requires forall i, j :: 0 <= i < |a| && 0 <= j < |b| ==> Precedes(a[i], b[j])
    ensures Ordered(a + b)
  {
    forall i, j | 0 <= i < j < |a + b| ensures Precedes((a + b)[i], (a + b)[j]) {
      if j < |a| {
        assert (a + b)[i] == a[i] && (a + b)[j] == a[j];
      } else if i >= |a| {
        assert (a + b)[i] == b[i - |a|] && (a + b)[j] == b[j - |a|];
      } else {
        assert (a + b)[i] == a[i] && (a + b)[j] == b[j - |a|];
      }
    }
  }

  /** Every frame saved before sequence (w, s) belongs to a sequence before it. */
  lemma {:induction false} VisitsBeforeBounded(cfg: Config, quit: Visit -> bool, w: nat, s: nat)
    requires Position(cfg, w, s)
    ensures forall i :: 0 <= i < |VisitsBefore(cfg, quit, w, s)| ==>
      LexBefore(VisitsBefore(cfg, quit, w, s)[i].word, VisitsBefore(cfg, quit, w, s)[i].sequence, w, s)
    decreases w, s
  {
    var vs := VisitsBefore(cfg, quit, w, s);
    if s > 0 {
      var done := VisitsBefore(cfg, quit, w, s - 1);
      VisitsBeforeBounded(cfg, quit, w, s - 1);
      forall i | 0 <= i < |vs| ensures LexBefore(vs[i].word, vs[i].sequence, w, s) {
        if i < |done| {
          assert vs[i] == done[i];
        } else {
          assert vs[i] == SavedFrames(quit, w, s - 1, cfg.frames)[i - |done|];
        }
      }
    } else if w > 0 {
      assert vs == VisitsBefore(cfg, quit, w - 1, cfg.sequences);
      VisitsBeforeBounded(cfg, quit, w - 1, cfg.sequences);
    }
  }

  lemma {:induction false} VisitsBeforeOrdered(cfg: Config, quit: Visit -> bool, w: nat, s: nat)
    requires Position(cfg, w, s)
    ensures Ordered(VisitsBefore(cfg, quit, w, s))
    decreases w, s
  {
    if s > 0 {
      var done, frames := VisitsBefore(cfg, quit, w, s - 1), SavedFrames(quit, w, s - 1, cfg.frames);
      assert frames == Frames(w, s - 1, SavedCount(quit, w, s - 1, cfg.frames));
      VisitsBeforeOrdered(cfg, quit, w, s - 1);
      VisitsBeforeBounded(cfg, quit, w, s - 1);
      assert Ordered(frames);
      forall i, j | 0 <= i < |done| && 0 <= j < |frames| ensures Precedes(done[i], frames[j]) {
        assert LexBefore(done[i].word, done[i].sequence, w, s - 1);
        assert frames[j] == Visit(w, s - 1, j);
      }
      OrderedConcat(done, frames);
    } else if w > 0 {
      VisitsBeforeOrdered(cfg, quit, w - 1, cfg.sequences);
    }
  }

  /** The capture loop saves word by word, sequence by sequence, frame by frame, never twice the same frame. */
  lemma {:induction false} RunVisitsOrdered(cfg: Config, quit: Visit -> bool)
    ensures Ordered(RunVisits(cfg, quit))
  {
    VisitsBeforeOrdered(cfg, quit, |cfg.words|, 0);
  }

  lemma MulSucc(a: nat, b: nat)
    ensures (a + 1) * b == a * b + b
  {
  }

  lemma {:induction false} VisitsBeforeCount(cfg: Config, quit: Visit -> bool, w: nat, s: nat)
    requires Position(cfg, w, s)
    requires forall v :: InRange(cfg, v) ==> !quit(v)
    ensures |VisitsBefore(cfg, quit, w, s)| == (w * cfg.sequences + s) * cfg.frames
    decreases w, s
  {
    var S, F := cfg.sequences, cfg.frames;
    if s > 0 {
      VisitsBeforeCount(cfg, quit, w, s - 1);
      SavedWithoutQuit(quit, w, s - 1, F);
      MulSucc(w * S + s - 1, F);
    } else if w > 0 {
      VisitsBeforeCount(cfg, quit, w - 1, S);
      MulSucc(w - 1, S);
    }
  }

  /** Without a 'q', a run saves exactly words x sequences x frames vectors. */
  lemma {:induction false} RunVisitsCount(cfg: Config, quit: Visit -> bool)
    requires forall v :: InRange(cfg, v) ==> !quit(v)
    ensures |RunVisits(cfg, quit)| == |cfg.words| * cfg.sequences * cfg.frames
  {
    VisitsBeforeCount(cfg, quit, |cfg.words|, 0);
  }

  /** With distinct words, no two saves of a run go to the same path. */
  lemma {:induction false} RunPathsDistinct(cfg: Config, quit: Visit -> bool)
    requires DistinctWords(cfg)
    ensures var vs := RunVisits(cfg, quit);
      forall i, j :: 0 <= i < j < |vs| ==> FramePath(cfg, vs[i]) != FramePath(cfg, vs[j])
  {
    var vs := RunVisits(cfg, quit);
    RunVisitsOrdered(cfg, quit);
    forall i, j | 0 <= i < j < |vs| ensures FramePath(cfg, vs[i]) != FramePath(cfg, vs[j]) {
      assert vs[i] in vs && vs[j] in vs;
      FramePathInjective(cfg, vs[i], vs[j]);
    }
  }

  /** The script's own words are distinct; without a 'q' it saves 5 x 30 x 30 vectors. */
  lemma {:induction false} SourceConfigRun(quit: Visit -> bool)
    requires forall v :: InRange(SourceConfig, v) ==> !quit(v)
    ensures DistinctWords(SourceConfig)
    ensures |RunVisits(SourceConfig, quit)| == 4500
  {
    RunVisitsCount(SourceConfig, quit);
  }

  // ----- What a run leaves on disk -----

  predicate WordsInRange(cfg: Config, vs: seq<Visit>) {
    forall i :: 0 <= i < |vs| ==> vs[i].word < |cfg.words|
  }

  /** The paths of the saves for vs, in order. */
  function PathsOf(cfg: Config, vs: seq<Visit>): (ps: seq<Path>)
    requires WordsInRange(cfg, vs)
    ensures |ps| == |vs|
  {
    if vs == [] then [] else PathsOf(cfg, vs[..|vs| - 1]) + [FramePath(cfg, vs[|vs| - 1])]
  }

  lemma {:induction false} PathsOfAt(cfg: Config, vs: seq<Visit>, i: nat)
    requires WordsInRange(cfg, vs) && i < |vs|
    ensures PathsOf(cfg, vs)[i] == FramePath(cfg, vs[i])
  {
    if i < |vs| - 1 {
      PathsOfAt(cfg, vs[..|vs| - 1], i);
    }
  }

  /** The keypoint vector saved for a visit: the encoding of the detection of its frame. */
  function FrameVectors(detect: Visit -> DetectionResult): Visit -> seq<real> {
    (v: Visit) => ExtractKeypoints(detect(v))
  }

  /** The files after saving the vector of every visit of vs in order, over `files`. */
  function StoreAll(files: map<Path, seq<real>>, cfg: Config, vector: Visit -> seq<real>, vs: seq<Visit>)
    : (r: map<Path, seq<real>>)
    requires WordsInRange(cfg, vs)
  {
    if vs == [] then files
    else
      var last := vs[|vs| - 1];
      StoreAll(files, cfg, vector, vs[..|vs| - 1])[FramePath(cfg, last) := vector(last)]
  }

  /** A visit whose path no later visit reuses leaves its own keypoint vector at that path. */
  lemma {:induction false} StoreAllHolds(files: map<Path, seq<real>>, cfg: Config,
                                        vector: Visit -> seq<real>, vs: seq<Visit>, i: nat)
    requires WordsInRange(cfg, vs) && i < |vs|
    requires forall j :: i < j < |vs| ==> FramePath(cfg, vs[j]) != FramePath(cfg, vs[i])
    ensures FramePath(cfg, vs[i]) in StoreAll(files, cfg, vector, vs)
    ensures StoreAll(files, cfg, vector, vs)[FramePath(cfg, vs[i])] == vector(vs[i])
  {
    if i < |vs| - 1 {
      StoreAllHolds(files, cfg, vector, vs[..|vs| - 1], i);
    }
  }

  /**
   * After a run with distinct words, the file of every saved frame holds the
   * keypoint vector of that frame's detection.
   */
  lemma {:induction false} RunStoresEachFrame(files: map<Path, seq<real>>, cfg: Config, quit: Visit -> bool,
                           detect: Visit -> DetectionResult, v: Visit)
    requires DistinctWords(cfg) && v in RunVisits(cfg, quit)
    ensures var r := StoreAll(files, cfg, FrameVectors(detect), RunVisits(cfg, quit));
      FramePath(cfg, v) in r && r[FramePath(cfg, v)] == ExtractKeypoints(detect(v))
  {
    var vs := RunVisits(cfg, quit);
    var i :| 0 <= i < |vs| && vs[i] == v;
    RunPathsDistinct(cfg, quit);
    StoreAllHolds(files, cfg, FrameVectors(detect), vs, i);
  }

  // ----- The capture loop -----

  ghost predicate AllDirsPresent(cfg: Config, dirs: set<Path>) {
    forall w: nat, s: nat :: w < |cfg.words| && s < cfg.sequences ==> SequenceDir(cfg, w, s) in dirs
  }

  ghost predicate DirsPresentBefore(cfg: Config, dirs: set<Path>, w: nat, s: nat) {
    forall w': nat, s': nat :: w' < |cfg.words| && s' < cfg.sequences && LexBefore(w', s', w, s)
      ==> SequenceDir(cfg, w', s') in dirs
  }

  /** Sequence (w, s) is the first, in the loops' order, whose directory is missing. */
  ghost predicate FirstMissingDir(cfg: Config, dirs: set<Path>, w: nat, s: nat) {
    w < |cfg.words| && s < cfg.sequences && SequenceDir(cfg, w, s) !in dirs
    && DirsPresentBefore(cfg, dirs, w, s)
  }

  lemma DirsPresentNext(cfg: Config, dirs: set<Path>, w: nat, s: nat)
    requires w < |cfg.words| && DirsPresentBefore(cfg, dirs, w, s) && SequenceDir(cfg, w, s) in dirs
    ensures DirsPresentBefore(cfg, dirs, w, s + 1)
  {
  }

  lemma DirsPresentNextWord(cfg: Config, dirs: set<Path>, w: nat)
    requires DirsPresentBefore(cfg, dirs, w, cfg.sequences)
    ensures DirsPresentBefore(cfg, dirs, w + 1, 0)
  {
  }

  /**
   * The frame loop of get_data for sequence s of word w: encode each frame's
   * detection and save it at root/word/str(sequence)/str(frame); a 'q' after
   * a save leaves this loop only. A save into a missing directory raises
   * (ok == false) before anything of the sequence is written.
   */
  method CaptureSequence(store: FileStore, cfg: Config, detect: Visit -> DetectionResult,
                         quit: Visit -> bool, w: nat, s: nat)
    returns (ok: bool)
    requires w < |cfg.words| && s < cfg.sequences
    modifies store`files, store`writes
    ensures ok <==> cfg.frames == 0 || SequenceDir(cfg, w, s) in store.dirs
    ensures ok ==> store.files == StoreAll(old(store.files), cfg, FrameVectors(detect), SavedFrames(quit, w, s, cfg.frames))
    ensures ok ==> store.writes == old(store.writes) + PathsOf(cfg, SavedFrames(quit, w, s, cfg.frames))
    ensures !ok ==> store.files == old(store.files) && store.writes == old(store.writes)
  {
    var f := 0;
    while f < cfg.frames
      invariant f <= cfg.frames && NoQuitBefore(quit, w, s, f)
      invariant store.files == StoreAll(old(store.files), cfg, FrameVectors(detect), Frames(w, s, f))
      invariant store.writes == old(store.writes) + PathsOf(cfg, Frames(w, s, f))
      invariant f > 0 ==> SequenceDir(cfg, w, s) in store.dirs
    {
      var next := f + 1;
      var saved := SaveFrame(store, cfg, detect, w, s, f, next, old(store.files), old(store.writes));
      if !saved {
        return false;
      }
      if quit(Visit(w, s, f)) {
        SavedUntilQuit(quit, w, s, f, cfg.frames);
        break;
      }
      NoQuitNext(quit, w, s, f, next);
      f := next;
    }
    SavedWithoutQuit(quit, w, s, cfg.frames);
    ok := true;
  }

  /**
   * One pass of the frame loop up to the save: encode the detection of frame f
   * and save it at root/word/str(sequence)/str(f), after frames 0 .. f - 1 of
   * the sequence were saved over `files0` and `writes0`.
   */
  method SaveFrame(store: FileStore, cfg: Config, detect: Visit -> DetectionResult, w: nat, s: nat, f: nat, next: nat,
                   ghost files0: map<Path, seq<real>>, ghost writes0: seq<Path>)
    returns (saved: bool)
    requires w < |cfg.words| && next == f + 1
    requires store.files == StoreAll(files0, cfg, FrameVectors(detect), Frames(w, s, f))
    requires store.writes == writes0 + PathsOf(cfg, Frames(w, s, f))
    modifies store`files, store`writes
    ensures saved <==> SequenceDir(cfg, w, s) in store.dirs
    ensures saved ==> store.files == StoreAll(files0, cfg, FrameVectors(detect), Frames(w, s, next))
    ensures saved ==> store.writes == writes0 + PathsOf(cfg, Frames(w, s, next))
    ensures !saved ==> store.files == old(store.files) && store.writes == old(store.writes)
  {
    var v := Visit(w, s, f);
    var keypoints := ExtractKeypoints(detect(v));
    saved := store.Save(FramePath(cfg, v), keypoints);
    if saved {
      SaveFrameStep(files0, writes0, cfg, FrameVectors(detect), w, s, f, next);
    }
  }

  /**
   * CaptureSequence run after the sequences before (w, s) left `files0` and
   * `writes0` extended by their saves.
   */
  method CaptureNextSequence(store: FileStore, cfg: Config, detect: Visit -> DetectionResult, quit: Visit -> bool,
                             w: nat, s: nat, next: nat, ghost files0: map<Path, seq<real>>, ghost writes0: seq<Path>)
    returns (ok: bool)
    requires w < |cfg.words| && s < cfg.sequences && next == s + 1
    requires store.files == StoreAll(files0, cfg, FrameVectors(detect), VisitsBefore(cfg, quit, w, s))
    requires store.writes == writes0 + PathsOf(cfg, VisitsBefore(cfg, quit, w, s))
    modifies store`files, store`writes
    ensures ok <==> cfg.frames == 0 || SequenceDir(cfg, w, s) in store.dirs
    ensures ok ==> store.files == StoreAll(files0, cfg, FrameVectors(detect), VisitsBefore(cfg, quit, w, next))
    ensures ok ==> store.writes == writes0 + PathsOf(cfg, VisitsBefore(cfg, quit, w, next))
    ensures !ok ==> store.files == old(store.files) && store.writes == old(store.writes)
  {
    ok := CaptureSequence(store, cfg, detect, quit, w, s);
    if ok {
      SequenceFilesStep(files0, cfg, FrameVectors(detect), quit, w, s, old(store.files), store.files);
      SequenceWritesStep(writes0, cfg, quit, w, s, old(store.writes), store.writes);
    }
  }

  /**
   * The sequence loop of get_data for word w, run after the words before it
   * left `files0` and `writes0` extended by their saves. It stops at the first
   * sequence whose directory is missing, with everything before it saved.
   */
  method CaptureWord(store: FileStore, cfg: Config, detect: Visit -> DetectionResult, quit: Visit -> bool,
                     w: nat, ghost files0: map<Path, seq<real>>, ghost writes0: seq<Path>)
    returns (ok: bool, ghost failed: nat)
    requires w < |cfg.words|
    requires store.files == StoreAll(files0, cfg, FrameVectors(detect), VisitsBefore(cfg, quit, w, 0))
    requires store.writes == writes0 + PathsOf(cfg, VisitsBefore(cfg, quit, w, 0))
    requires cfg.frames > 0 ==> DirsPresentBefore(cfg, store.dirs, w, 0)
    modifies store`files, store`writes
    ensures ok <==> cfg.frames == 0 || DirsPresentBefore(cfg, store.dirs, w + 1, 0)
    ensures ok ==> store.files == StoreAll(files0, cfg, FrameVectors(detect), VisitsBefore(cfg, quit, w + 1, 0))
    ensures ok ==> store.writes == writes0 + PathsOf(cfg, VisitsBefore(cfg, quit, w + 1, 0))
    ensures !ok ==> FirstMissingDir(cfg, store.dirs, w, failed)
    ensures !ok ==> store.files == StoreAll(files0, cfg, FrameVectors(detect), VisitsBefore(cfg, quit, w, failed))
    ensures !ok ==> store.writes == writes0 + PathsOf(cfg, VisitsBefore(cfg, quit, w, failed))
  {
    failed := 0;
    var s := 0;
    while s < cfg.sequences
      invariant s <= cfg.sequences
      invariant store.files == StoreAll(files0, cfg, FrameVectors(detect), VisitsBefore(cfg, quit, w, s))
      invariant store.writes == writes0 + PathsOf(cfg, VisitsBefore(cfg, quit, w, s))
      invariant cfg.frames > 0 ==> DirsPresentBefore(cfg, store.dirs, w, s)
    {
      var next := s + 1;
      ok := CaptureNextSequence(store, cfg, detect, quit, w, s, next, files0, writes0);
      if !ok {
        failed := s;
        return;
      }
      if cfg.frames > 0 {
        DirsPresentNext(cfg, store.dirs, w, s);
      }
      s := next;
    }
    if cfg.frames > 0 {
      DirsPresentNextWord(cfg, store.dirs, w);
    }
    ok := true;
  }

  /**
   * get_data: every sequence of every word in order. An exception from a
   * save ends the whole run (ok == false) at the first sequence whose
   * directory is missing, after everything before it has been saved.
   */
  method GetData(store: FileStore, cfg: Config, detect: Visit -> DetectionResult, quit: Visit -> bool)
    returns (ok: bool)
    modifies store`files, store`writes
    ensures ok <==> cfg.frames == 0 || AllDirsPresent(cfg, store.dirs)
    ensures ok ==> store.files == StoreAll(old(store.files), cfg, FrameVectors(detect), RunVisits(cfg, quit))
    ensures ok ==> store.writes == old(store.writes) + PathsOf(cfg, RunVisits(cfg, quit))
    ensures !ok ==> exists w: nat, s: nat ::
      && FirstMissingDir(cfg, store.dirs, w, s)
      && store.files == StoreAll(old(store.files), cfg, FrameVectors(detect), VisitsBefore(cfg, quit, w, s))
      && store.writes == old(store.writes) + PathsOf(cfg, VisitsBefore(cfg, quit, w, s))
  {
    var w := 0;
    while w < |cfg.words|
      invariant w <= |cfg.words|
      invariant store.files == StoreAll(old(store.files), cfg, FrameVectors(detect), VisitsBefore(cfg, quit, w, 0))
      invariant store.writes == old(store.writes) + PathsOf(cfg, VisitsBefore(cfg, quit, w, 0))
      invariant cfg.frames > 0 ==> DirsPresentBefore(cfg, store.dirs, w, 0)
    {
      ghost var s;
      ok, s := CaptureWord(store, cfg, detect, quit, w, old(store.files), old(store.writes));
      if !ok {
        return;
      }
      w := w + 1;
    }
    ok := true;
  }

  /** Saving the frames of sequence s over the files of the sequences before it gives the files of the sequences up to s. */
  lemma {:induction false} SequenceFilesStep(files0: map<Path, seq<real>>, cfg: Config, vector: Visit -> seq<real>,
                          quit: Visit -> bool, w: nat, s: nat, before: map<Path, seq<real>>, after: map<Path, seq<real>>)
    requires w < |cfg.words| && s < cfg.sequences
    requires WordsInRange(cfg, VisitsBefore(cfg, quit, w, s))
    requires before == StoreAll(files0, cfg, vector, VisitsBefore(cfg, quit, w, s))
    requires WordsInRange(cfg, SavedFrames(quit, w, s, cfg.frames))
    requires after == StoreAll(before, cfg, vector, SavedFrames(quit, w, s, cfg.frames))
    ensures WordsInRange(cfg, VisitsBefore(cfg, quit, w, s + 1))
    ensures after == StoreAll(files0, cfg, vector, VisitsBefore(cfg, quit, w, s + 1))
  {
    StoreAllAppend(files0, cfg, vector, VisitsBefore(cfg, quit, w, s), SavedFrames(quit, w, s, cfg.frames));
  }

  /** The same for the log of saved paths. */
  lemma {:induction false} SequenceWritesStep(writes0: seq<Path>, cfg: Config, quit: Visit -> bool, w: nat, s: nat,
                           before: seq<Path>, after: seq<Path>)
    requires w < |cfg.words| && s < cfg.sequences
    requires WordsInRange(cfg, VisitsBefore(cfg, quit, w, s))
    requires before == writes0 + PathsOf(cfg, VisitsBefore(cfg, quit, w, s))
    requires WordsInRange(cfg, SavedFrames(quit, w, s, cfg.frames))
    requires after == before + PathsOf(cfg, SavedFrames(quit, w, s, cfg.frames))
    ensures WordsInRange(cfg, VisitsBefore(cfg, quit, w, s + 1))
    ensures after == writes0 + PathsOf(cfg, VisitsBefore(cfg, quit, w, s + 1))
  {
    PathsOfAppend(cfg, VisitsBefore(cfg, quit, w, s), SavedFrames(quit, w, s, cfg.frames));
    AppendAssoc(writes0, PathsOf(cfg, VisitsBefore(cfg, quit, w, s)), PathsOf(cfg, SavedFrames(quit, w, s, cfg.frames)));
  }

  lemma AppendAssoc<T>(a: seq<T>, b: seq<T>, c: seq<T>)
    ensures a + (b + c) == (a + b) + c
  {
  }

  /** Saving frame f after frames 0 .. f - 1 gives the store of frames 0 .. f. */
  lemma {:induction false} SaveFrameStep(files0: map<Path, seq<real>>, writes0: seq<Path>, cfg: Config,
                      vector: Visit -> seq<real>, w: nat, s: nat, f: nat, next: nat)
    requires w < |cfg.words| && next == f + 1
    ensures WordsInRange(cfg, Frames(w, s, f)) && WordsInRange(cfg, Frames(w, s, next))
    ensures StoreAll(files0, cfg, vector, Frames(w, s, next))
      == StoreAll(files0, cfg, vector, Frames(w, s, f))[FramePath(cfg, Visit(w, s, f)) := vector(Visit(w, s, f))]
    ensures writes0 + PathsOf(cfg, Frames(w, s, next))
      == writes0 + PathsOf(cfg, Frames(w, s, f)) + [FramePath(cfg, Visit(w, s, f))]
  {
    var v := Visit(w, s, f);
    assert Frames(w, s, next) == Frames(w, s, f) + [v];
    StoreAllSnoc(files0, cfg, vector, Frames(w, s, f), v);
    PathsOfSnoc(cfg, Frames(w, s, f), v);
    AppendAssoc(writes0, PathsOf(cfg, Frames(w, s, f)), [FramePath(cfg, v)]);
  }

  lemma {:induction false} StoreAllSnoc(files: map<Path, seq<real>>, cfg: Config,
                     vector: Visit -> seq<real>, a: seq<Visit>, v: Visit)
    requires WordsInRange(cfg, a) && v.word < |cfg.words|
    ensures WordsInRange(cfg, a + [v])
    ensures StoreAll(files, cfg, vector, a + [v])
      == StoreAll(files, cfg, vector, a)[FramePath(cfg, v) := vector(v)]
  {
    assert (a + [v])[..|a|] == a;
  }

  lemma {:induction false} PathsOfSnoc(cfg: Config, a: seq<Visit>, v: Visit)
    requires WordsInRange(cfg, a) && v.word < |cfg.words|
    ensures WordsInRange(cfg, a + [v])
    ensures PathsOf(cfg, a + [v]) == PathsOf(cfg, a) + [FramePath(cfg, v)]
  {
    assert (a + [v])[..|a|] == a;
  }

  lemma {:induction false} PathsOfAppend(cfg: Config, a: seq<Visit>, b: seq<Visit>)
    requires WordsInRange(cfg, a) && WordsInRange(cfg, b)
    ensures WordsInRange(cfg, a + b)
    ensures PathsOf(cfg, a + b) == PathsOf(cfg, a) + PathsOf(cfg, b)
    decreases |b|
  {
    if b == [] {
      assert a + b == a;
    } else {
      var b' := b[..|b| - 1];
      assert (a + b)[..|a + b| - 1] == a + b';
      PathsOfAppend(cfg, a, b');
    }
  }

  lemma {:induction false} StoreAllAppend(files: map<Path, seq<real>>, cfg: Config,
                                         vector: Visit -> seq<real>, a: seq<Visit>, b: seq<Visit>)
    requires WordsInRange(cfg, a) && WordsInRange(cfg, b)
    ensures WordsInRange(cfg, a + b)
    ensures StoreAll(files, cfg, vector, a + b) == StoreAll(StoreAll(files, cfg, vector, a), cfg, vector, b)
    decreases |b|
  {
    if b == [] {
      assert a + b == a;
    } else {
      var b' := b[..|b| - 1];
      assert (a + b)[..|a + b| - 1] == a + b';
      StoreAllAppend(files, cfg, vector, a, b');
    }
  }

  /**
   * The whole script: the setup loop, then get_data. A run fails only when a
   * sequence directory neither existed nor could be created, and then the
   * failure comes from the capture loop, not from the setup loop that hid it.
   */
  method CollectDataSet(store: FileStore, cfg: Config, detect: Visit -> DetectionResult, quit: Visit -> bool)
    returns (ok: bool)
    requires store.Valid()
    modifies store
    ensures store.Valid()
    ensures ok <==> cfg.frames == 0 || forall w: nat, s: nat :: w < |cfg.words| && s < cfg.sequences ==>
      SequenceDir(cfg, w, s) in old(store.dirs) || !Blocked(SequenceDir(cfg, w, s), old(store.dirs), store.forbidden)
    ensures store.dirs == SetupDirs(old(store.dirs), cfg, store.forbidden)
    ensures ok ==> store.files == StoreAll(old(store.files), cfg, FrameVectors(detect), RunVisits(cfg, quit))
    ensures ok ==> store.writes == old(store.writes) + PathsOf(cfg, RunVisits(cfg, quit))
    ensures !ok ==> exists w: nat, s: nat ::
      && FirstMissingDir(cfg, store.dirs, w, s)
      && store.files == StoreAll(old(store.files), cfg, FrameVectors(detect), VisitsBefore(cfg, quit, w, s))
      && store.writes == old(store.writes) + PathsOf(cfg, VisitsBefore(cfg, quit, w, s))
  {
    SetupDirectories(store, cfg);
    forall w: nat, s: nat | w < |cfg.words| && s < cfg.sequences
      ensures SequenceDir(cfg, w, s) in store.dirs
              <==> SequenceDir(cfg, w, s) in old(store.dirs) || !Blocked(SequenceDir(cfg, w, s), old(store.dirs), store.forbidden)
    {
      SetupCreatesSequenceDirs(old(store.dirs), cfg, store.forbidden, w, s);
    }
    ok := GetData(store, cfg, detect, quit);
  }
}
