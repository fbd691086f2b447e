/**
 * The classification adapter: a lazily loaded, process-wide classifier handle
 * and the normalisation of the labels it returns. The model loader, the image
 * resizer and the inference call are foreign code; their outcomes are
 * parameters.
 */
module ClassifyFood {
  import opened Wrappers
  import Text

  /** The classifier object created by the model loader; only its identity matters. */
  datatype Handle = Handle(id: nat)

  /** The number of labels asked of the classifier (`top_k`). */
  const TopK: nat := 5

  /** One label character: lower-cased, then `_` replaced by a space. */
  function NormalizeChar(c: char): char {
    var l := Text.LowerChar(c);
    if l == '_' then ' ' else l
  }

  /** `label.toLowerCase().replace(/_/g, ' ')`. */
  function NormalizeLabel(s: string): (r: string)
    ensures |r| == |s|
    ensures '_' !in r
    ensures forall i :: 0 <= i < |s| && s[i] == '_' ==> r[i] == ' '
    ensures forall i :: 0 <= i < |s| && s[i] != '_' ==> r[i] == Text.LowerChar(s[i])
  {
    if s == [] then [] else [NormalizeChar(s[0])] + NormalizeLabel(s[1..])
  }

  /** `result.map(r => normalise(r.label))`. */
  function NormalizeLabels(raw: seq<string>): (r: seq<string>)
    ensures |r| == |raw|
    ensures forall i :: 0 <= i < |raw| ==> r[i] == NormalizeLabel(raw[i])
  {
    if raw == [] then [] else [NormalizeLabel(raw[0])] + NormalizeLabels(raw[1..])
  }

  lemma NormalizeCharIdempotent(c: char)
    ensures NormalizeChar(NormalizeChar(c)) == NormalizeChar(c)
  {
  }

  /** Normalising a label twice gives the same label as normalising it once. */
  lemma NormalizeLabelIdempotent(s: string)
    ensures NormalizeLabel(NormalizeLabel(s)) == NormalizeLabel(s)
  {
  }

  /** The same holds for a whole label list. */
  lemma {:induction false} NormalizeLabelsIdempotent(raw: seq<string>)
    ensures NormalizeLabels(NormalizeLabels(raw)) == NormalizeLabels(raw)
  {
    var once := NormalizeLabels(raw);
    forall i | 0 <= i < |raw|
      ensures NormalizeLabels(once)[i] == once[i]
    {
      NormalizeLabelIdempotent(raw[i]);
    }
  }

  /**
   * What `detectFood` resolves to once the handle is (or is not) available:
   * any failure of loading, resizing or inference gives the empty list,
   * otherwise the normalised labels in classifier order.
   */
  function Detected(loaded: bool, resized: bool, inference: Option<seq<string>>): (labels: seq<string>)
    ensures !loaded || !resized || inference.None? ==> labels == []
    ensures loaded && resized && inference.Some? ==>
      |labels| == |inference.value| &&
      forall i :: 0 <= i < |labels| ==> labels[i] == NormalizeLabel(inference.value[i])
    ensures forall l :: l in labels ==> '_' !in l
    ensures inference.Some? && |inference.value| <= TopK ==> |labels| <= TopK
  {
    if loaded && resized && inference.Some? then NormalizeLabels(inference.value) else []
  }

  /** The module holding the lazily initialised `classifier` variable. */
  class ClassifierModule {
    /** The module-level handle; `None` is JavaScript's `null`. */
    var classifier: Option<Handle>
    /** How many times the model loader has been invoked. */
    ghost var loads: nat

    constructor ()
      ensures classifier == None && loads == 0
    {
      classifier := None;
      loads := 0;
    }

    /**
     * `loadClassifier`: returns the cached handle when there is one; otherwise
     * invokes the loader, whose outcome is `created` (`None` when it throws,
     * in which case the field stays `null` and the error propagates).
     */
    method LoadClassifier(created: Option<Handle>) returns (r: Option<Handle>)
      modifies this
      ensures old(classifier).Some? ==> r == old(classifier) && classifier == old(classifier) && loads == old(loads)
      ensures old(classifier).None? ==> r == created && classifier == created && loads == old(loads) + 1
      ensures r.Some? ==> classifier == r
    {
      if classifier.Some? {
        return classifier;
      }
      loads := loads + 1;
      classifier := created;
      r := classifier;
    }

    /**
     * `detectFood`: loads the classifier, then resizes and classifies the image;
     * `resized` and `inference` are the outcomes of the resize and the
     * inference call (`inference` holds the raw labels in confidence order,
     * `None` when the call throws). Every error yields the empty list.
     */
    method DetectFood(created: Option<Handle>, resized: bool, inference: Option<seq<string>>)
      returns (labels: seq<string>)
      modifies this
      ensures old(classifier).Some? ==> classifier == old(classifier) && loads == old(loads)
      ensures old(classifier).None? ==> classifier == created && loads == old(loads) + 1
      ensures labels == Detected(classifier.Some?, resized, inference)
    {
      var handle := LoadClassifier(created);
      if handle.None? {
        return [];
      }
      if !resized {
        return [];
      }
      if inference.None? {
        return [];
      }
      labels := NormalizeLabels(inference.value);
    }
  }

  /** Two loads in a row: once a load succeeds, the loader is never invoked again. */
  method LoadTwice(m: ClassifierModule, first: Option<Handle>, second: Option<Handle>)
    returns (a: Option<Handle>, b: Option<Handle>)
    modifies m
    ensures first.Some? || old(m.classifier).Some? ==> b == a && m.classifier == a
    ensures old(m.classifier).None? && first.Some? ==> m.loads == old(m.loads) + 1
  {
    a := m.LoadClassifier(first);
    b := m.LoadClassifier(second);
  }
}
