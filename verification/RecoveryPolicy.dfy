/** When the last-resort Desktop restart is withheld (recovery_policy.go, warm_start.go's
    IsRendererOnlyAnomaly). */
module RecoveryPolicy {
  import opened Text

  const RENDERER_PREFIX := "renderer_"

  predicate IsRendererOnlyAnomaly(code: string) {
    var c := ToLower(TrimSpace(code));
    c in {"renderer_oom", "renderer_crash", "renderer_unresponsive", "renderer_only"} || RENDERER_PREFIX <= c
  }

  datatype Recovery = Recovery(lastRendererOnly: bool, lastCode: string)
  {
    function Observe(code: string): Recovery {
      Recovery(IsRendererOnlyAnomaly(code), TrimSpace(code))
    }
  }

  function NewRecovery(): Recovery {
    Recovery(false, "")
  }

  class RecoveryPolicy {
    var lastRendererOnly: bool
    var lastCode: string

    ghost function View(): Recovery
      reads this
    {
      Recovery(lastRendererOnly, lastCode)
    }

    constructor ()
      ensures View() == NewRecovery()
    {
      lastRendererOnly := false;
      lastCode := "";
    }

    method ObserveAnomaly(code: string) returns (rendererOnly: bool)
      modifies this
      ensures View() == old(View()).Observe(code)
      ensures rendererOnly <==> RENDERER_PREFIX <= ToLower(TrimSpace(code))
    {
      NamedCodesCarryThePrefix(code);
      rendererOnly := IsRendererOnlyAnomaly(code);
      lastCode := TrimSpace(code);
      lastRendererOnly := rendererOnly;
    }

    method ShouldSkipFullDesktopRestart() returns (skip: bool)
      ensures skip <==> View().lastRendererOnly
    {
      skip := lastRendererOnly;
    }
  }

  /** The named codes add nothing: a code is renderer-only exactly when it carries the prefix. */
  lemma NamedCodesCarryThePrefix(code: string)
    ensures IsRendererOnlyAnomaly(code) <==> RENDERER_PREFIX <= ToLower(TrimSpace(code))
  {
    assert RENDERER_PREFIX <= "renderer_oom";
    assert RENDERER_PREFIX <= "renderer_crash";
    assert RENDERER_PREFIX <= "renderer_unresponsive";
    assert RENDERER_PREFIX <= "renderer_only";
  }

  /** What is remembered of a report: its code without padding, and whether that is a renderer's. */
  lemma ObservedIs(r: Recovery, code: string)
    ensures r.Observe(code) == Recovery("renderer_" <= ToLower(TrimSpace(code)), TrimSpace(code))
    ensures NewRecovery() == Recovery(false, "")
  {
    hide TrimSpace, ToLower, IsRendererOnlyAnomaly;
    NamedCodesCarryThePrefix(code);
  }
}
