/**
 * The watch-scope filter that gates every object event (`watch_namespace`).
 * The scope string is the process-wide WATCH_NAMESPACE setting, read once at
 * start-up; here it is an explicit parameter.
 */
module Scope {
  import opened Text

  /** Is an event in `namespace` inside the configured scope? The empty scope
      means every namespace; otherwise the scope is split on ',' and the
      namespace must equal one of the pieces exactly, blanks included, so a
      name that contains a comma is never watched by a non-empty scope. */
  function WatchNamespace(scope: string, namespace: string): (watched: bool)
    ensures scope == "" ==> watched
    ensures scope != "" && ',' in namespace ==> !watched
    ensures watched && scope != "" ==> |namespace| <= |scope|
  {
    scope == "" ||
    var pieces := Split(scope, ',');
    assert forall k :: 0 <= k < |pieces| ==> |pieces[k]| <= |scope| by {
      forall k | 0 <= k < |pieces| ensures |pieces[k]| <= |scope| {
        PieceInSplit(scope, ',', k);
      }
    }
    namespace in pieces
  }

  /** For a scope written as a comma-separated list of names, a namespace is
      watched exactly when it is one of those names. */
  lemma WatchListed(names: seq<string>, namespace: string)
    requires |names| >= 1
    requires forall i :: 0 <= i < |names| ==> ',' !in names[i]
    requires Join(names, ',') != ""
    ensures WatchNamespace(Join(names, ','), namespace) <==> namespace in names
  {
    SplitJoin(names, ',');
  }

  /** Pieces are not trimmed: with the scope "team-a, team-b" the namespace
      "team-b" is outside the scope, while " team-b" (with its blank) is inside. */
  lemma WatchDoesNotTrim()
    ensures !WatchNamespace("team-a, team-b", "team-b")
    ensures WatchNamespace("team-a, team-b", " team-b")
  {
    var names := ["team-a", " team-b"];
    assert Join(names, ',') == "team-a, team-b";
    SplitJoin(names, ',');
  }
}
