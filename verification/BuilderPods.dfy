/** Volumes and mounts of the image builder pod. */
module BuilderPods {
  import opened Common

  datatype Source = EmptyDir | ConfigMap(name: string) | Secret(name: string)

  datatype Volume = Volume(name: string, source: Source)

  datatype Mount = Mount(name: string, path: string)

  /** A secret of the namespace with the service account it is annotated with, if any. */
  datatype SecretObject = SecretObject(name: string, account: string)

  const BUILDER_ACCOUNT := "builder"

  function DockerfileConfigMapName(image: string): string
  {
    image + "-dockerfile"
  }

  function BuilderPodName(image: string): string
  {
    image + "-builder"
  }

  /** The first Docker secret of the builder account, or no name. */
  function FirstBuilderSecret(secrets: seq<SecretObject>): string
  {
    if secrets == [] then ""
    else if secrets[0].account == BUILDER_ACCOUNT then secrets[0].name
    else FirstBuilderSecret(secrets[1..])
  }

  /** It is the first: nothing before it belongs to the builder account, and what comes after does not matter. */
  lemma {:induction false} FirstSecretIsFirst(before: seq<SecretObject>, name: string, after: seq<SecretObject>)
    requires forall i | 0 <= i < |before| :: before[i].account != "builder"
    ensures FirstBuilderSecret(before + [SecretObject(name, "builder")] + after) == name
    ensures FirstBuilderSecret(before) == ""
    decreases |before|
  {
    var secrets := before + [SecretObject(name, "builder")] + after;
    if before != [] {
      assert secrets[1..] == before[1..] + [SecretObject(name, "builder")] + after;
      FirstSecretIsFirst(before[1..], name, after);
    }
  }

  method DockerBuilderSecretName(secrets: seq<SecretObject>) returns (name: string)
    ensures name == FirstBuilderSecret(secrets)
    ensures (forall k | 0 <= k < |secrets| :: secrets[k].account != BUILDER_ACCOUNT) ==> name == ""
  {
    assert secrets[0..] == secrets;
    for i := 0 to |secrets|
      invariant FirstBuilderSecret(secrets) == FirstBuilderSecret(secrets[i..])
      invariant forall k | 0 <= k < i :: secrets[k].account != BUILDER_ACCOUNT
    {
      assert secrets[i..][1..] == secrets[i + 1..];
      if secrets[i].account == BUILDER_ACCOUNT {
        return secrets[i].name;
      }
    }
    return "";
  }

  /** `listed` is the answer to the listing of the secrets. */
  function PushSecretName(secret: string, listed: Option<seq<SecretObject>>): Option<string>
  {
    if secret != "" then Some(secret)
    else match listed
         case None => None
         case Some(secrets) => Some(FirstBuilderSecret(secrets))
  }

  predicate Usable(push: Option<string>)
  {
    push.Some? && push.value != ""
  }

  /** The lookup made for the volumes and the one made for the mounts are two separate calls. */
  function Volumes(image: string, push: Option<string>): seq<Volume>
  {
    [Volume(image + "-dockerfile-storage", EmptyDir),
     Volume(DockerfileConfigMapName(image), ConfigMap(DockerfileConfigMapName(image)))] +
    if Usable(push) then [Volume(image + "-docker-secret", Secret(push.value))] else []
  }

  function Mounts(image: string, push: Option<string>): seq<Mount>
  {
    [Mount(image + "-dockerfile-storage", "/workspace"), Mount(image + "-dockerfile", "/dockerfile")] +
    if Usable(push) then [Mount(image + "-docker-secret", "/kaniko/.docker/")] else []
  }

  /** Mounts and volumes correspond one to one by name, in order, and no name occurs twice. */
  predicate Paired(volumes: seq<Volume>, mounts: seq<Mount>)
  {
    && |volumes| == |mounts|
    && (forall i | 0 <= i < |volumes| :: volumes[i].name == mounts[i].name)
    && (forall i, j | 0 <= i < j < |volumes| :: volumes[i].name != volumes[j].name)
  }

  lemma SuffixesDiffer(image: string)
    ensures image + "-dockerfile-storage" != image + "-dockerfile"
    ensures image + "-dockerfile-storage" != image + "-docker-secret"
    ensures image + "-dockerfile" != image + "-docker-secret"
  {
    assert |image + "-dockerfile-storage"| == |image| + 19;
    assert |image + "-dockerfile"| == |image| + 11;
    assert |image + "-docker-secret"| == |image| + 14;
  }

  /** Volumes and mounts one by one, with a push secret. */
  lemma AllOfThem(image: string, secret: string)
    requires secret != ""
    ensures Volumes(image, PushSecretName(secret, None)) == [
              Volume(image + "-dockerfile-storage", EmptyDir),
              Volume(image + "-dockerfile", ConfigMap(image + "-dockerfile")),
              Volume(image + "-docker-secret", Secret(secret))]
    ensures Mounts(image, PushSecretName(secret, None)) == [
              Mount(image + "-dockerfile-storage", "/workspace"), Mount(image + "-dockerfile", "/dockerfile"),
              Mount(image + "-docker-secret", "/kaniko/.docker/")]
  {
  }

  /**
   * The builder pod's mounts and volumes pair up if and only if the image names its own push secret or the two
   * lookups agree on whether there is one.
   */
  lemma PairedIff(image: string, secret: string, first: Option<seq<SecretObject>>, second: Option<seq<SecretObject>>)
    ensures Paired(Volumes(image, PushSecretName(secret, first)), Mounts(image, PushSecretName(secret, second))) <==>
            secret != "" || Usable(PushSecretName("", first)) == Usable(PushSecretName("", second))
  {
    SuffixesDiffer(image);
  }
}
