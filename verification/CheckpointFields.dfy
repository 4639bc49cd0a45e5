/** The checkpoint field of a stream kind is named after the kind. */
module CheckpointFields {
  import opened Prelude
  import opened Checkpoint

  function Lower(c: char): char {
    if 'A' <= c <= 'Z' then c + ('a' - 'A') else c
  }

  /** The same letters, when capitals count as small ones and underscores not at all. */
  predicate SameLetters(kind: string, stem: string) {
    if kind == "" then stem == ""
    else if kind[0] == '_' then SameLetters(kind[1..], stem)
    else stem != "" && Lower(stem[0]) == kind[0] && SameLetters(kind[1..], stem[1..])
  }

  ghost predicate NamedAfter(kind: string, field: string) {
    exists stem :: field == stem + "Versions" && SameLetters(kind, stem)
  }

  predicate IsWord(word: string) {
    word != "" && forall i :: 0 <= i < |word| ==> 'a' <= word[i] <= 'z'
  }

  lemma {:induction false} WordIsItself(word: string)
    requires forall i :: 0 <= i < |word| ==> 'a' <= word[i] <= 'z'
    ensures SameLetters(word, word)
  {
    if word != "" {
      WordIsItself(word[1..]);
    }
  }

  /** The word with its first letter in capitals. */
  function Capital(word: string): string
    requires IsWord(word)
  {
    [word[0] - ('a' - 'A')] + word[1..]
  }

  lemma CapitalSameLetters(word: string)
    requires IsWord(word)
    ensures SameLetters("_" + word, Capital(word)) && SameLetters(word, Capital(word))
  {
    WordIsItself(word[1..]);
    assert ("_" + word)[1..] == word && Capital(word)[1..] == word[1..];
  }

  lemma {:induction false} Joined(k: string, f: string, k': string, f': string)
    requires SameLetters(k, f) && SameLetters(k', f')
    ensures SameLetters(k + k', f + f')
  {
    if k == "" {
      assert k + k' == k' && f + f' == f';
    } else {
      assert (k + k')[1..] == k[1..] + k';
      if k[0] == '_' {
        Joined(k[1..], f, k', f');
      } else {
        Joined(k[1..], f[1..], k', f');
        assert (f + f')[1..] == f[1..] + f';
      }
    }
  }

  lemma OneWord(a: string, field: string)
    requires IsWord(a) && field == a + "Versions"
    ensures NamedAfter(a, field)
  {
    WordIsItself(a);
  }

  lemma TwoWords(a: string, b: string, kind: string, field: string)
    requires IsWord(a) && IsWord(b) && kind == a + "_" + b && field == a + Capital(b) + "Versions"
    ensures NamedAfter(kind, field)
  {
    WordIsItself(a);
    CapitalSameLetters(b);
    Joined(a, a, "_" + b, Capital(b));
    assert kind == a + ("_" + b);
  }

  lemma ThreeWords(a: string, b: string, c: string, kind: string, field: string)
    requires IsWord(a) && IsWord(b) && IsWord(c)
    requires kind == a + ("_" + b) + ("_" + c) && field == a + Capital(b) + Capital(c) + "Versions"
    ensures NamedAfter(kind, field)
  {
    WordIsItself(a);
    CapitalSameLetters(b);
    CapitalSameLetters(c);
    Joined(a, a, "_" + b, Capital(b));
    Joined(a + ("_" + b), a + Capital(b), "_" + c, Capital(c));
    var stem := a + Capital(b) + Capital(c);
    assert field == stem + "Versions" && SameLetters(kind, stem);
  }

  /** Two words written together in the kind. */
  lemma FusedWords(a: string, b: string, kind: string, field: string)
    requires IsWord(a) && IsWord(b) && kind == a + b && field == a + Capital(b) + "Versions"
    ensures NamedAfter(kind, field)
  {
    WordIsItself(a);
    CapitalSameLetters(b);
    Joined(a, a, b, Capital(b));
  }

  lemma CloudflareResourceBindingVersions(kind: string, field: string)
    requires kind == "cloudflare_resource_binding" && field == "cloudflareResourceBindingVersions"
    ensures NamedAfter(kind, field)
  {
    ThreeWords("cloudflare", "resource", "binding", kind, field);
  }

  lemma SandboxLeaseVersions(kind: string, field: string)
    requires kind == "sandbox_lease" && field == "sandboxLeaseVersions"
    ensures NamedAfter(kind, field)
  {
    TwoWords("sandbox", "lease", kind, field);
  }

  lemma LabBoardVersions(kind: string, field: string)
    requires kind == "lab_board" && field == "labBoardVersions"
    ensures NamedAfter(kind, field)
  {
    TwoWords("lab", "board", kind, field);
  }

  lemma SkillCandidateVersions(kind: string, field: string)
    requires kind == "skill_candidate" && field == "skillCandidateVersions"
    ensures NamedAfter(kind, field)
  {
    TwoWords("skill", "candidate", kind, field);
  }

  lemma DelegateAssignmentVersions(kind: string, field: string)
    requires kind == "delegate_assignment" && field == "delegateAssignmentVersions"
    ensures NamedAfter(kind, field)
  {
    TwoWords("delegate", "assignment", kind, field);
  }

  lemma CognitiveCandidateVersions(kind: string, field: string)
    requires kind == "cognitive_candidate" && field == "cognitiveCandidateVersions"
    ensures NamedAfter(kind, field)
  {
    TwoWords("cognitive", "candidate", kind, field);
  }

  lemma BotVersions(kind: string, field: string)
    requires kind == "bot" && field == "botVersions"
    ensures NamedAfter(kind, field)
  {
    OneWord(kind, field);
  }

  lemma ToolExecutionVersions(kind: string, field: string)
    requires kind == "tool_execution" && field == "toolExecutionVersions"
    ensures NamedAfter(kind, field)
  {
    TwoWords("tool", "execution", kind, field);
  }

  lemma ReplayForkVersions(kind: string, field: string)
    requires kind == "replay_fork" && field == "replayForkVersions"
    ensures NamedAfter(kind, field)
  {
    TwoWords("replay", "fork", kind, field);
  }

  lemma CouncilVersions(kind: string, field: string)
    requires kind == "council" && field == "councilVersions"
    ensures NamedAfter(kind, field)
  {
    OneWord(kind, field);
  }

  lemma CohortVersions(kind: string, field: string)
    requires kind == "cohort" && field == "cohortVersions"
    ensures NamedAfter(kind, field)
  {
    OneWord(kind, field);
  }

  lemma ArtifactPromotionVersions(kind: string, field: string)
    requires kind == "artifact_promotion" && field == "artifactPromotionVersions"
    ensures NamedAfter(kind, field)
  {
    TwoWords("artifact", "promotion", kind, field);
  }

  lemma PromptProposalVersions(kind: string, field: string)
    requires kind == "prompt_proposal" && field == "promptProposalVersions"
    ensures NamedAfter(kind, field)
  {
    TwoWords("prompt", "proposal", kind, field);
  }

  lemma HumanApprovalVersions(kind: string, field: string)
    requires kind == "human_approval" && field == "humanApprovalVersions"
    ensures NamedAfter(kind, field)
  {
    TwoWords("human", "approval", kind, field);
  }

  lemma ClaimVersions(kind: string, field: string)
    requires kind == "claim" && field == "claimVersions"
    ensures NamedAfter(kind, field)
  {
    OneWord(kind, field);
  }

  lemma DriverRunVersions(kind: string, field: string)
    requires kind == "driverrun" && field == "driverRunVersions"
    ensures NamedAfter(kind, field)
  {
    FusedWords("driver", "run", kind, field);
  }

  lemma CapabilityVersions(kind: string, field: string)
    requires kind == "capability" && field == "capabilityVersions"
    ensures NamedAfter(kind, field)
  {
    OneWord(kind, field);
  }

  lemma TaskVersions(kind: string, field: string)
    requires kind == "task" && field == "taskVersions"
    ensures NamedAfter(kind, field)
  {
    OneWord(kind, field);
  }

  lemma MissionVersions(kind: string, field: string)
    requires kind == "mission" && field == "missionVersions"
    ensures NamedAfter(kind, field)
  {
    OneWord(kind, field);
  }

  /** Every kind is listed under the field that bears its name. */
  lemma FieldBearsKind(kind: string)
    requires kind in KIND_TO_FIELD
    ensures NamedAfter(kind, KIND_TO_FIELD[kind])
  {
    var field := KIND_TO_FIELD[kind];
    if kind == "cloudflare_resource_binding" {
      CloudflareResourceBindingVersions(kind, field);
    } else if kind == "sandbox_lease" {
      SandboxLeaseVersions(kind, field);
    } else if kind == "lab_board" {
      LabBoardVersions(kind, field);
    } else if kind == "skill_candidate" {
      SkillCandidateVersions(kind, field);
    } else if kind == "delegate_assignment" {
      DelegateAssignmentVersions(kind, field);
    } else if kind == "cognitive_candidate" {
      CognitiveCandidateVersions(kind, field);
    } else if kind == "bot" {
      BotVersions(kind, field);
    } else if kind == "tool_execution" {
      ToolExecutionVersions(kind, field);
    } else if kind == "replay_fork" {
      ReplayForkVersions(kind, field);
    } else if kind == "council" {
      CouncilVersions(kind, field);
    } else if kind == "cohort" {
      CohortVersions(kind, field);
    } else if kind == "artifact_promotion" {
      ArtifactPromotionVersions(kind, field);
    } else if kind == "prompt_proposal" {
      PromptProposalVersions(kind, field);
    } else if kind == "human_approval" {
      HumanApprovalVersions(kind, field);
    } else if kind == "claim" {
      ClaimVersions(kind, field);
    } else if kind == "driverrun" {
      DriverRunVersions(kind, field);
    } else if kind == "capability" {
      CapabilityVersions(kind, field);
    } else if kind == "task" {
      TaskVersions(kind, field);
    } else if kind == "mission" {
      MissionVersions(kind, field);
    }
  }
}
