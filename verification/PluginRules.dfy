/**
 Exactly which registry operations are accepted, and what an accepted one changes.
 */
module PluginRules {
  import opened Wrappers
  import opened PluginRegistry

  /** What a caller can check beforehand, from the two tables alone. */
  ghost predicate Acceptable(s: Store, op: Op) {
    match op
    case Install(key, digest, _, _) => key !in s.plugins || s.plugins[key].digest == digest
    case SetEnabled(key, enabled, intact) => key in s.plugins && (enabled ==> intact)
    case Remove(key, _) => key in s.plugins && !s.plugins[key].enabled
    case Restore(id) => id in s.removed && s.removed[id].key !in s.plugins
  }

  /** In a consistent store an operation is accepted exactly when the tables allow it, and each refusal names its reason. */
  lemma AcceptedIffAcceptable(s: Store, op: Op)
    ensures Consistent(s) ==>
              && (Refuses(s, op).None? <==> Acceptable(s, op))
              && (op.Install? && !Acceptable(s, op) ==> Refuses(s, op) == Some(Conflict))
              && (op.SetEnabled? && op.key !in s.plugins ==> Refuses(s, op) == Some(NotInstalled))
              && (op.SetEnabled? && op.key in s.plugins && op.enabled && !op.intact ==> Refuses(s, op) == Some(Unavailable))
              && (op.Remove? && op.key !in s.plugins ==> Refuses(s, op) == Some(NotInstalled))
              && (op.Remove? && op.key in s.plugins && s.plugins[op.key].enabled ==> Refuses(s, op) == Some(StillEnabled))
              && (op.Restore? && op.id !in s.removed ==> Refuses(s, op) == Some(NotRecoverable))
              && (op.Restore? && op.id in s.removed && !Acceptable(s, op) ==> Refuses(s, op) == Some(NotRestorable))
  {
    hide OneEnabled;
  }

  /** A new version arrives disabled, with the digest, the signer and the files it was given, and nothing else changes; the
      same archive again changes nothing at all. */
  lemma InstallBrings(s: Store, key: Key, digest: string, signer: string, files: Files)
    ensures Consistent(s) && Acceptable(s, Install(key, digest, signer, files)) ==>
              var after := Perform(s, Install(key, digest, signer, files), false);
              if key in s.plugins then after == s
              else
                && after.plugins == s.plugins[key := Row(false, digest, signer, Version(key))]
                && after.disk == s.disk[Version(key) := files] && after.removed == s.removed
  {
    AcceptedIffAcceptable(s, Install(key, digest, signer, files));
  }

  /** Disabling clears one flag and nothing else; enabling is exclusive within its name. */
  lemma SwitchChangesFlags(s: Store, key: Key, other: Key)
    ensures Consistent(s) && key in s.plugins && other in s.plugins ==>
              var off, on := Perform(s, SetEnabled(key, false, true), false), Perform(s, SetEnabled(key, true, true), false);
              && off.disk == on.disk == s.disk && off.removed == on.removed == s.removed
              && off.plugins.Keys == on.plugins.Keys == s.plugins.Keys
              && off.plugins[other] == (if other == key then s.plugins[other].(enabled := false) else s.plugins[other])
              && on.plugins[other] == s.plugins[other].(
                   enabled := if other.name == key.name then other == key else s.plugins[other].enabled)
  {
    AcceptedIffAcceptable(s, SetEnabled(key, false, true));
    AcceptedIffAcceptable(s, SetEnabled(key, true, true));
  }

  /** A removal takes row and files out and keeps both under its id. */
  lemma RemovalKeepsAll(s: Store, key: Key, id: nat)
    ensures Consistent(s) && FreshId(s, Remove(key, id)) && Acceptable(s, Remove(key, id)) ==>
              var after := Perform(s, Remove(key, id), false);
              && after.plugins == s.plugins - {key} && Version(key) in s.disk
              && after.removed == s.removed[id := RemovedRow(key, s.plugins[key].digest, s.plugins[key].signer, Trash(id))]
              && after.disk == (s.disk - {Version(key)})[Trash(id) := s.disk[Version(key)]]
  {
    AcceptedIffAcceptable(s, Remove(key, id));
  }

  /** Whatever is refused, or fails at any step, leaves database and directories as they were. */
  lemma FailureChangesNothing(s: Store, op: Op)
    ensures Refuses(s, op).Some? ==> Perform(s, op, false) == s
    ensures Perform(s, op, true) == s
  {
  }
}
