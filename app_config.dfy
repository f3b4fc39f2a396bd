/**
 * Build-variant selection in app.config.js: the iOS bundle identifier and the
 * over-the-air updates switch, both chosen from the same variant. The process
 * environment is a parameter: an unset variable is `None`.
 */
module AppConfig {
  import opened Wrappers
  import opened Strings

  const BaseBundleId: string := "com.itaruo93o.wakewalk"
  const UpdatesUrl: string := "https://u.expo.dev/bab41865-be8c-4986-a1a4-fbae81a463e4"

  /** The two environment variables the configuration reads. */
  datatype Env = Env(appVariant: Option<string>, easBuildProfile: Option<string>)

  /** `APP_VARIANT ?? EAS_BUILD_PROFILE ?? 'development'`: a set variable wins even when empty. */
  function Variant(env: Env): (v: string)
    ensures env.appVariant.Some? ==> v == env.appVariant.value
    ensures env.appVariant.None? && env.easBuildProfile.Some? ==> v == env.easBuildProfile.value
    ensures env.appVariant.None? && env.easBuildProfile.None? ==> v == "development"
  {
    env.appVariant.Or(env.easBuildProfile).GetOr("development")
  }

  /** `getBundleIdentifier`, once the variant is known. */
  function BundleIdFor(variant: string): (id: string)
    ensures |id| >= |BaseBundleId| && id[..|BaseBundleId|] == BaseBundleId
  {
    if variant == "development" then BaseBundleId + ".dev"
    else if variant == "personal" then BaseBundleId + ".personal"
    else BaseBundleId
  }

  function BundleIdentifier(env: Env): string {
    BundleIdFor(Variant(env))
  }

  datatype UpdatesConfig = UpdatesConfig(enabled: bool, url: string)

  /** `getUpdatesConfig`, once the variant is known. */
  function UpdatesFor(variant: string): (u: UpdatesConfig)
    ensures u.enabled <==> variant != "development"
    ensures u.url == UpdatesUrl
  {
    UpdatesConfig(variant != "development", UpdatesUrl)
  }

  function Updates(env: Env): UpdatesConfig {
    UpdatesFor(Variant(env))
  }

  /** Each variant class gets its own identifier: '.dev', '.personal', or the bare base id. */
  lemma BundleIdClasses(variant: string)
    ensures EndsWith(BundleIdFor(variant), ".dev") <==> variant == "development"
    ensures EndsWith(BundleIdFor(variant), ".personal") <==> variant == "personal"
    ensures BundleIdFor(variant) == BaseBundleId <==> variant != "development" && variant != "personal"
  {
    var dev, personal := BaseBundleId + ".dev", BaseBundleId + ".personal";
    assert BaseBundleId[|BaseBundleId| - 4..] == "walk";
    assert dev[|dev| - 4..] == ".dev";
    assert dev[|dev| - 9..] == "ewalk.dev";
    assert personal[|personal| - 9..] == ".personal";
    assert personal[|personal| - 4..] == "onal";
    assert |BaseBundleId| < |dev| && |BaseBundleId| < |personal|;
  }

  /** Read from one environment, a '.dev' bundle id goes with disabled updates and nothing else does. */
  lemma DevBuildsHaveNoUpdates(env: Env)
    ensures EndsWith(BundleIdentifier(env), ".dev") <==> !Updates(env).enabled
  {
    BundleIdClasses(Variant(env));
  }

  /** With neither variable set the build is a development build. */
  lemma UnsetEnvIsDevelopment()
    ensures BundleIdentifier(Env(None, None)) == BaseBundleId + ".dev"
    ensures !Updates(Env(None, None)).enabled
  {
  }
}
