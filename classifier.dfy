/**
 * `classify_model`: the construction method of a genome-scale metabolic model, read off its
 * file name by four rules tried in order, the first that fires deciding the label.
 */
module Classifier {
  import opened Text

  /** The five labels `classify_model` returns. */
  datatype ModelType = PEAR | CarveMe | ModelSEED | Published | Other

  /** The labels the pipeline keeps; `Other` rows are discarded. */
  const Recognised: set<ModelType> := {PEAR, CarveMe, ModelSEED, Published}

  /** Reference meaning of rule 4's test on one piece: `i` and then one or more ASCII letters or digits. */
  ghost predicate PublishedSegment(part: string)
  {
    |part| >= 2 && part[0] == 'i' && forall k :: 1 <= k < |part| ==> IsAsciiAlnum(part[k])
  }

  /** Reference meaning of rule 4: some `_`-separated piece of the name is a published segment. */
  ghost predicate HasPublishedSegment(name: string)
  {
    exists p :: p in Split(name, '_') && PublishedSegment(p)
  }

  /**
   * Rule 4's test on one piece, `part.startswith('i') and part[1:].isalnum()`. A bare `i`
   * fails it: its remainder is empty, and Python calls the empty string not alphanumeric.
   */
  function IsPublishedPart(part: string): (b: bool)
    ensures b <==> PublishedSegment(part)
  {
    assert forall k :: 1 <= k < |part| ==> part[k] == part[1..][k - 1];
    |part| > 0 && part[0] == 'i' && IsAlnum(part[1..])
  }

  /** `any(IsPublishedPart(part) for part in parts)`. */
  function AnyPublishedPart(parts: seq<string>): (b: bool)
    ensures b <==> exists p :: p in parts && PublishedSegment(p)
    decreases |parts|
  {
    if |parts| == 0 then
      false
    else
      assert forall p :: p in parts <==> p == parts[0] || p in parts[1..];
      IsPublishedPart(parts[0]) || AnyPublishedPart(parts[1..])
  }

  /**
   * `classify_model(name)` after `str(name)`. The ensures give each label's exact condition:
   * a rule fires only when every earlier one did not, and `Other` is what is left.
   */
  function Classify(name: string): (t: ModelType)
    ensures t == CarveMe <==> Occurs(".faa", name)
    ensures t == ModelSEED <==> !Occurs(".faa", name) && Occurs(".seed", name)
    ensures t == PEAR <==> !Occurs(".faa", name) && !Occurs(".seed", name) && Occurs("GCF", name)
    ensures t == Published <==>
      !Occurs(".faa", name) && !Occurs(".seed", name) && !Occurs("GCF", name) && HasPublishedSegment(name)
    ensures t == Other <==>
      !Occurs(".faa", name) && !Occurs(".seed", name) && !Occurs("GCF", name) && !HasPublishedSegment(name)
    ensures t in Recognised <==> t != Other
  {
    if Contains(name, ".faa") then CarveMe
    else if Contains(name, ".seed") then ModelSEED
    else if Contains(name, "GCF") && !(Contains(name, ".faa") || Contains(name, ".seed")) then PEAR
    else if AnyPublishedPart(Split(name, '_')) then Published
    else Other
  }

  /** Rule 3 without its `not any(x in name for x in ['.faa', '.seed'])` guard. */
  function ClassifyUnguarded(name: string): ModelType
  {
    if Contains(name, ".faa") then CarveMe
    else if Contains(name, ".seed") then ModelSEED
    else if Contains(name, "GCF") then PEAR
    else if AnyPublishedPart(Split(name, '_')) then Published
    else Other
  }

  /** The guard on rule 3 is redundant: rules 1 and 2 have already returned when it would fail. */
  lemma GcfGuardRedundant(name: string)
    ensures Classify(name) == ClassifyUnguarded(name)
  {
  }

  /** A pattern whose first character is absent from the name does not occur in it. */
  lemma AbsentLead(t: string, name: string)
    requires |t| > 0 && t[0] !in name
    ensures !Occurs(t, name)
  {
  }

  /** A missing name cell reads as `"nan"` once `str` is applied, and fails every rule. */
  lemma NanIsOther()
    ensures Classify("nan") == Other
  {
    AbsentLead(".faa", "nan");
    AbsentLead(".seed", "nan");
    AbsentLead("GCF", "nan");
    assert Split("nan", '_') == ["nan"];
  }

  /** A bare `i` piece does not mark a published model: its remainder is empty. */
  lemma BareIIsOther()
    ensures !PublishedSegment("i")
    ensures Classify("model_i") == Other
  {
    AbsentLead(".faa", "model_i");
    AbsentLead(".seed", "model_i");
    AbsentLead("GCF", "model_i");
    assert Join(["model", "i"], '_') == "model_i";
    SplitJoin(["model", "i"], '_');
  }

  /** A name joined from `_`-free pieces, one of them a published segment, satisfies rule 4's test. */
  lemma JoinedPublished(parts: seq<string>, k: nat)
    requires k < |parts|
    requires forall p :: p in parts ==> '_' !in p
    requires PublishedSegment(parts[k])
    ensures HasPublishedSegment(Join(parts, '_'))
  {
    SplitJoin(parts, '_');
    assert parts[k] in Split(Join(parts, '_'), '_');
  }

  /** `e_coli_iJO1366` joins three `_`-free pieces, the last a published segment. */
  lemma EColiPieces()
    ensures Join(["e", "coli", "iJO1366"], '_') == "e_coli_iJO1366"
    ensures forall p :: p in ["e", "coli", "iJO1366"] ==> '_' !in p
    ensures PublishedSegment("iJO1366")
  {
    assert Join(["iJO1366"], '_') == "iJO1366";
    assert Join(["coli", "iJO1366"], '_') == "coli_iJO1366";
  }

  /** The pieces of `e_coli_iJO1366` include the published segment `iJO1366`. */
  lemma EColiPublishedSegment()
    ensures HasPublishedSegment("e_coli_iJO1366")
  {
    EColiPieces();
    JoinedPublished(["e", "coli", "iJO1366"], 2);
  }

  /** A name such as `e_coli_iJO1366` is published through its last piece. */
  lemma PublishedExample()
    ensures Classify("e_coli_iJO1366") == Published
  {
    AbsentLead(".faa", "e_coli_iJO1366");
    AbsentLead(".seed", "e_coli_iJO1366");
    AbsentLead("GCF", "e_coli_iJO1366");
    EColiPublishedSegment();
  }

  /** A protein FASTA name wins rule 1 even though it also carries a GCF accession. */
  lemma CarveMeExample()
    ensures Classify("GCF_000005845.2_protein.faa") == CarveMe
  {
    assert OccursAt(".faa", "GCF_000005845.2_protein.faa", 23);
  }
}
