/**
 The git tag that names a release: written by the artifact delivery, named by the labels of a deployment event and
 cloned by the promotion service (gitops-operator/controllers/utils_artifactdelivery.go:39-42,
 keptn-operator/controllers/keptnservicedeploymentcontroller/keptnservicedeployment_controller.go:265-280,
 promotion-service/eventhandler/eventhandlers.go:42-58, promotion-service/pkg/utils/githandler.go:88).
 */
module ReleaseTag {
  import opened Wrappers

  const VERSION := "version"
  const CONFIG_VERSION := "configVersion"

  type Labels = map<string, string>

  function Tag(service: string, version: string, configVersion: string): string {
    service + "-" + version + "-" + configVersion
  }

  /** An empty config version is written "0". */
  function OrZero(configVersion: string): string {
    if configVersion == "" then "0" else configVersion
  }

  /** The tag `composeData` publishes. */
  function PublishedTag(service: string, version: string, configVersion: string): string {
    Tag(service, version, OrZero(configVersion))
  }

  /** The labels of a deployment event: version and config version first, then the user's own labels over them. */
  function EventLabels(version: string, configVersion: string, user: Labels): Labels {
    map[VERSION := version, CONFIG_VERSION := OrZero(configVersion)] + user
  }

  /** `triggerTask` fills the labels by a loop over the user's labels, in any order. */
  method BuildLabels(version: string, configVersion: string, user: Labels) returns (labels: Labels)
    ensures labels == EventLabels(version, configVersion, user)
  {
    var config := "0";
    if configVersion != "" {
      config := configVersion;
    }
    labels := map[VERSION := version, CONFIG_VERSION := config];
    ghost var fixed := labels;
    var todo := user.Keys;
    while todo != {}
      invariant todo <= user.Keys
      invariant labels == fixed + (map k | k in user && k !in todo :: user[k])
      decreases todo
    {
      var k :| k in todo;
      labels := labels[k := user[k]];
      todo := todo - {k};
    }
    assert user == (map k | k in user && k !in todo :: user[k]);
  }

  /** The tag the promotion service clones for an event, or nothing for its "No version label given" error. */
  function ClonedTag(service: string, labels: Labels): Option<string> {
    if VERSION !in labels then None
    else Some(Tag(service, labels[VERSION], if CONFIG_VERSION in labels then labels[CONFIG_VERSION] else "0"))
  }

  function Effective(labels: Labels, key: string, own: string): string {
    if key in labels then labels[key] else own
  }

  /** The defaults: "0" for a config version that is empty, or that the labels do not have. */
  lemma DefaultConfigVersion(service: string, version: string, labels: Labels)
    requires VERSION in labels && CONFIG_VERSION !in labels
    ensures PublishedTag(service, version, "") == service + "-" + version + "-0"
    ensures ClonedTag(service, labels) == Some(PublishedTag(service, labels[VERSION], ""))
  {
    assert service + "-" + version + "-" + "0" == service + "-" + version + "-0";
  }

  /** Both tags are the three names with dashes between them. */
  lemma TagNames(service: string, version: string, configVersion: string, labels: Labels)
    requires configVersion != "" && VERSION in labels && CONFIG_VERSION in labels
    ensures PublishedTag(service, version, configVersion) == service + "-" + version + "-" + configVersion
    ensures ClonedTag(service, labels) == Some(service + "-" + labels[VERSION] + "-" + labels[CONFIG_VERSION])
  {}

  /** Without a version label nothing is cloned. */
  lemma NoVersionLabel(service: string, labels: Labels)
    ensures ClonedTag(service, labels) == None <==> VERSION !in labels
  {}

  /** The user's labels win over the two of the operator, and nothing else is sent. */
  lemma LabelsOfEvent(version: string, configVersion: string, user: Labels, key: string)
    ensures var labels := EventLabels(version, configVersion, user);
      && (key in user ==> key in labels && labels[key] == user[key])
      && (key !in user && key == "version" ==> key in labels && labels[key] == version)
      && (key !in user && key == "configVersion" ==>
            key in labels && labels[key] == if configVersion == "" then "0" else configVersion)
      && (key !in user && key != "version" && key != "configVersion" ==> key !in labels)
  {}

  lemma LastDash(a: string, b: string, i: nat)
    requires '-' !in b && i < |a| + 1 + |b| && (a + "-" + b)[i] == '-'
    ensures i <= |a|
  {
    var s := a + "-" + b;
    assert forall j :: |a| < j < |s| ==> s[j] == b[j - |a| - 1] && s[j] in b;
  }

  lemma SplitAtLastDash(a: string, b: string, c: string, d: string)
    requires '-' !in b && '-' !in d && a + "-" + b == c + "-" + d
    ensures a == c && b == d
  {
    var s, t := a + "-" + b, c + "-" + d;
    assert s[|a|] == t[|c|] == '-';
    LastDash(c, d, |a|);
    LastDash(a, b, |c|);
    assert s[..|a|] == a && t[..|c|] == c;
    assert s[|a| + 1..] == b && t[|c| + 1..] == d;
  }

  /** Dash-free versions make the tag injective, whatever dashes the service name has. */
  lemma TagInjective(s: string, v: string, c: string, s': string, v': string, c': string)
    requires '-' !in v && '-' !in c && '-' !in v' && '-' !in c'
    requires Tag(s, v, c) == Tag(s', v', c')
    ensures s == s' && v == v' && c == c'
  {
    SplitAtLastDash(s + "-" + v, c, s' + "-" + v', c');
    SplitAtLastDash(s, v, s', v');
  }

  /** No other service with dash-free versions has the tag. */
  ghost predicate Unmistakable(s: string, v: string, c: string) {
    forall s', v', c' :: '-' !in v' && '-' !in c' && Tag(s', v', c') == Tag(s, v, c) ==> s' == s && v' == v && c' == c
  }

  lemma {:induction false} FindLastDash(t: string) returns (i: nat)
    requires '-' in t
    ensures i < |t| && t[i] == '-' && forall j :: i < j < |t| ==> t[j] != '-'
    decreases |t|
  {
    i := |t| - 1;
    if t[i] != '-' {
      i := FindLastDash(t[..i]);
    }
  }

  /** Every tag is that of some service with dash-free versions: it is split at its last two dashes. */
  lemma DashFreeRival(s: string, v: string, c: string) returns (s': string, v': string, c': string)
    ensures '-' !in v' && '-' !in c' && Tag(s', v', c') == Tag(s, v, c)
  {
    var t := Tag(s, v, c);
    assert t[|s|] == '-' == t[|s| + 1 + |v|];
    var q := FindLastDash(t);
    assert t[..q][|s|] == '-' && t[..q][|s|] in t[..q];
    var p := FindLastDash(t[..q]);
    s', v', c' := t[..p], t[..q][p + 1..], t[q + 1..];
    assert t == t[..q] + "-" + c' && t[..q] == s' + "-" + v';
  }

  /** The tag names no other such service if and only if version and config version have no dash. */
  lemma UnmistakableExactly(s: string, v: string, c: string)
    ensures Unmistakable(s, v, c) <==> '-' !in v && '-' !in c
  {
    if '-' !in v && '-' !in c {
      forall s', v', c' | '-' !in v' && '-' !in c' && Tag(s', v', c') == Tag(s, v, c)
        ensures s' == s && v' == v && c' == c
      {
        TagInjective(s', v', c', s, v, c);
      }
    } else {
      var s', v', c' := DashFreeRival(s, v, c);
      assert !Unmistakable(s, v, c);
    }
  }

  /** A pre-release version shares its tag with another service. */
  lemma DashedVersionsCollide()
    ensures Tag("cart", "1-2", "0") == Tag("cart-1", "2", "0")
  {
    assert Tag("cart", "1-2", "0") == "cart-1-2-0";
  }

  /** The promotion service clones the tag the delivery published, unless a user label renames version or config. */
  lemma PublishedIsCloned(service: string, version: string, configVersion: string, user: Labels)
    requires VERSION !in user && CONFIG_VERSION !in user
    ensures ClonedTag(service, EventLabels(version, configVersion, user)) ==
            Some(PublishedTag(service, version, configVersion))
  {}

  /** With dash-free versions: the published tag is cloned exactly when the user's labels leave both values alone. */
  lemma PublishedIsClonedExactly(service: string, version: string, configVersion: string, user: Labels)
    requires '-' !in version && '-' !in configVersion
    requires '-' !in Effective(user, VERSION, version) && '-' !in Effective(user, CONFIG_VERSION, "0")
    ensures ClonedTag(service, EventLabels(version, configVersion, user)) ==
            Some(PublishedTag(service, version, configVersion)) <==>
            Effective(user, VERSION, version) == version &&
            Effective(user, CONFIG_VERSION, OrZero(configVersion)) == OrZero(configVersion)
  {
    var labels := EventLabels(version, configVersion, user);
    var v, c := labels[VERSION], labels[CONFIG_VERSION];
    if Tag(service, v, c) == PublishedTag(service, version, configVersion) {
      TagInjective(service, v, c, service, version, OrZero(configVersion));
    }
  }
}
