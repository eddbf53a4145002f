/** `normalize` from src/config.js: merges the command-line arguments over the
    configuration file, the command line winning under `??`. */
module Config {
  import opened Js

  /** `args.x ?? config.s?.y` */
  function Pick(args: Record, arg: string, section: JsVal, fileKey: string): JsVal {
    Coalesce(Field(args, arg), OptProp(section, fileKey))
  }

  function ServerSection(args: Record, server: JsVal): JsVal {
    Obj(map[
      "id" := Pick(args, "server_id", server, "id"),
      "secret" := Pick(args, "server_secret", server, "secret"),
      "url" := Pick(args, "server_url", server, "url")])
  }

  function AppSection(args: Record, app: JsVal): JsVal {
    Obj(map[
      "verbose" := Pick(args, "verbose", app, "verbose"),
      "skipPS" := Pick(args, "skip_ps", app, "skip_ps"),
      "skipAD" := Pick(args, "skip_ad", app, "skip_ad"),
      "cachePath" := Coalesce(Pick(args, "cache_path", app, "cache_path"), Absent),
      "domain" := Pick(args, "domain", app, "domain"),
      "sendEmail" := Pick(args, "sendEmail", app, "sendEmail"),
      "attribute" := Pick(args, "attribute", app, "attribute")])
  }

  function AdScriptsSection(args: Record, adScripts: JsVal): JsVal {
    Obj(map["userList" := Pick(args, "ad_script_user_list", adScripts, "user_list")])
  }

  function EmailSection(args: Record, email: JsVal): JsVal {
    Obj(map[
      "to" := Pick(args, "email_to", email, "to"),
      "from" := Pick(args, "email_from", email, "from"),
      "host" := Pick(args, "email_host", email, "host"),
      "port" := Pick(args, "email_port", email, "port"),
      "pass" := Pick(args, "email_pass", email, "pass")])
  }

  /** The merged configuration. Reading `config.schools` on a `null` or missing file
      content throws, which is the one error `normalize` can raise. */
  function Normalize(args: Record, config: JsVal): (r: Result<JsVal>)
    ensures r.Err? <==> Nullish(config)
    ensures r.Ok? ==> r.value.Obj?
  {
    if Nullish(config) then
      Err("TypeError: Cannot read properties of " + ToStr(config) + " (reading 'schools')")
    else
      Ok(Obj(map[
        "schools" := OptProp(config, "schools"),
        "server" := ServerSection(args, OptProp(config, "server")),
        "app" := AppSection(args, OptProp(config, "app")),
        "adScripts" := AdScriptsSection(args, OptProp(config, "ad_scripts")),
        "email" := EmailSection(args, OptProp(config, "email"))]))
  }

  /** `out.section.key` */
  function Out(out: JsVal, section: string, key: string): JsVal {
    OptProp(OptProp(out, section), key)
  }

  /** The section objects of the output are the ones the section builders make. */
  lemma {:induction false} Sections(args: Record, config: JsVal)
    requires !Nullish(config)
    ensures var out := Normalize(args, config).value;
      OptProp(out, "server") == ServerSection(args, OptProp(config, "server")) &&
      OptProp(out, "app") == AppSection(args, OptProp(config, "app")) &&
      OptProp(out, "adScripts") == AdScriptsSection(args, OptProp(config, "ad_scripts")) &&
      OptProp(out, "email") == EmailSection(args, OptProp(config, "email"))
  {
  }

  // Field lookups in each section builder.

  lemma ServerSectionFields(args: Record, sec: JsVal)
    ensures OptProp(ServerSection(args, sec), "id") == Pick(args, "server_id", sec, "id")
    ensures OptProp(ServerSection(args, sec), "secret") == Pick(args, "server_secret", sec, "secret")
    ensures OptProp(ServerSection(args, sec), "url") == Pick(args, "server_url", sec, "url")
  {
  }

  lemma AppSectionFields(args: Record, sec: JsVal)
    ensures OptProp(AppSection(args, sec), "verbose") == Pick(args, "verbose", sec, "verbose")
    ensures OptProp(AppSection(args, sec), "skipPS") == Pick(args, "skip_ps", sec, "skip_ps")
    ensures OptProp(AppSection(args, sec), "skipAD") == Pick(args, "skip_ad", sec, "skip_ad")
    ensures OptProp(AppSection(args, sec), "cachePath") == Coalesce(Pick(args, "cache_path", sec, "cache_path"), Absent)
    ensures OptProp(AppSection(args, sec), "domain") == Pick(args, "domain", sec, "domain")
    ensures OptProp(AppSection(args, sec), "sendEmail") == Pick(args, "sendEmail", sec, "sendEmail")
    ensures OptProp(AppSection(args, sec), "attribute") == Pick(args, "attribute", sec, "attribute")
  {
  }

  lemma AdScriptsSectionFields(args: Record, sec: JsVal)
    ensures OptProp(AdScriptsSection(args, sec), "userList") == Pick(args, "ad_script_user_list", sec, "user_list")
  {
  }

  lemma EmailSectionFields(args: Record, sec: JsVal)
    ensures OptProp(EmailSection(args, sec), "to") == Pick(args, "email_to", sec, "to")
    ensures OptProp(EmailSection(args, sec), "from") == Pick(args, "email_from", sec, "from")
    ensures OptProp(EmailSection(args, sec), "host") == Pick(args, "email_host", sec, "host")
    ensures OptProp(EmailSection(args, sec), "port") == Pick(args, "email_port", sec, "port")
    ensures OptProp(EmailSection(args, sec), "pass") == Pick(args, "email_pass", sec, "pass")
  {
  }

  /** Every output field is `args.<argument> ?? config.<section>?.<key>`: a command-line
      value that is neither `null` nor undefined wins, whatever it is; otherwise the
      file's value is taken (undefined when the section is missing). */
  lemma {:induction false} ServerOut(args: Record, config: JsVal)
    requires !Nullish(config)
    ensures Out(Normalize(args, config).value, "server", "id") == Coalesce(Field(args, "server_id"), OptProp(OptProp(config, "server"), "id"))
    ensures Out(Normalize(args, config).value, "server", "secret") == Coalesce(Field(args, "server_secret"), OptProp(OptProp(config, "server"), "secret"))
    ensures Out(Normalize(args, config).value, "server", "url") == Coalesce(Field(args, "server_url"), OptProp(OptProp(config, "server"), "url"))
  {
    Sections(args, config);
    ServerSectionFields(args, OptProp(config, "server"));
  }

  /** As for the server section; `cachePath` adds `?? undefined`, turning a `null` into undefined. */
  lemma {:induction false} AppOut(args: Record, config: JsVal)
    requires !Nullish(config)
    ensures Out(Normalize(args, config).value, "app", "verbose") == Coalesce(Field(args, "verbose"), OptProp(OptProp(config, "app"), "verbose"))
    ensures Out(Normalize(args, config).value, "app", "skipPS") == Coalesce(Field(args, "skip_ps"), OptProp(OptProp(config, "app"), "skip_ps"))
    ensures Out(Normalize(args, config).value, "app", "skipAD") == Coalesce(Field(args, "skip_ad"), OptProp(OptProp(config, "app"), "skip_ad"))
    ensures Out(Normalize(args, config).value, "app", "cachePath") == Coalesce(Coalesce(Field(args, "cache_path"), OptProp(OptProp(config, "app"), "cache_path")), Absent)
    ensures Out(Normalize(args, config).value, "app", "domain") == Coalesce(Field(args, "domain"), OptProp(OptProp(config, "app"), "domain"))
    ensures Out(Normalize(args, config).value, "app", "sendEmail") == Coalesce(Field(args, "sendEmail"), OptProp(OptProp(config, "app"), "sendEmail"))
    ensures Out(Normalize(args, config).value, "app", "attribute") == Coalesce(Field(args, "attribute"), OptProp(OptProp(config, "app"), "attribute"))
  {
    Sections(args, config);
    AppSectionFields(args, OptProp(config, "app"));
  }

  /** The one `adScripts` field comes from `ad_script_user_list` or the file's `ad_scripts.user_list`. */
  lemma {:induction false} AdScriptsOut(args: Record, config: JsVal)
    requires !Nullish(config)
    ensures Out(Normalize(args, config).value, "adScripts", "userList") == Coalesce(Field(args, "ad_script_user_list"), OptProp(OptProp(config, "ad_scripts"), "user_list"))
  {
    Sections(args, config);
    AdScriptsSectionFields(args, OptProp(config, "ad_scripts"));
  }

  /** The email fields merge the same way. */
  lemma {:induction false} EmailOut(args: Record, config: JsVal)
    requires !Nullish(config)
    ensures Out(Normalize(args, config).value, "email", "to") == Coalesce(Field(args, "email_to"), OptProp(OptProp(config, "email"), "to"))
    ensures Out(Normalize(args, config).value, "email", "from") == Coalesce(Field(args, "email_from"), OptProp(OptProp(config, "email"), "from"))
    ensures Out(Normalize(args, config).value, "email", "host") == Coalesce(Field(args, "email_host"), OptProp(OptProp(config, "email"), "host"))
    ensures Out(Normalize(args, config).value, "email", "port") == Coalesce(Field(args, "email_port"), OptProp(OptProp(config, "email"), "port"))
    ensures Out(Normalize(args, config).value, "email", "pass") == Coalesce(Field(args, "email_pass"), OptProp(OptProp(config, "email"), "pass"))
  {
    Sections(args, config);
    EmailSectionFields(args, OptProp(config, "email"));
  }

  /** `cachePath` is never `null`: with neither source giving a value it is `undefined`. */
  lemma CachePathNeverNull(args: Record, config: JsVal)
    requires !Nullish(config)
    ensures !Out(Normalize(args, config).value, "app", "cachePath").Null?
    ensures Nullish(Field(args, "cache_path")) && Nullish(OptProp(OptProp(config, "app"), "cache_path")) ==>
      Out(Normalize(args, config).value, "app", "cachePath") == Absent
  {
  }

  /** `schools` comes from the file alone: no command-line argument changes it. */
  lemma SchoolsFromFileOnly(args1: Record, args2: Record, config: JsVal)
    requires !Nullish(config)
    ensures OptProp(Normalize(args1, config).value, "schools") == OptProp(config, "schools")
    ensures OptProp(Normalize(args1, config).value, "schools") == OptProp(Normalize(args2, config).value, "schools")
  {
  }

  /** The output has exactly the five listed sections, whatever the inputs. */
  lemma NormalizeSections(args: Record, config: JsVal)
    requires !Nullish(config)
    ensures Normalize(args, config).value.fields.Keys == {"schools", "server", "app", "adScripts", "email"}
  {
  }

  /** The `app` section has exactly the seven merged keys: the options the rules read
      (`noWrite`, `outputMatched`, `outputIgnored`, `group`, `checkEmployeeID`) are not
      carried through, so they read as undefined. */
  lemma {:induction false} RuleOptionsNotCarried(args: Record, config: JsVal)
    requires !Nullish(config)
    ensures OptProp(Normalize(args, config).value, "app").fields.Keys ==
      {"verbose", "skipPS", "skipAD", "cachePath", "domain", "sendEmail", "attribute"}
    ensures Out(Normalize(args, config).value, "app", "noWrite") == Absent
    ensures Out(Normalize(args, config).value, "app", "outputMatched") == Absent
    ensures Out(Normalize(args, config).value, "app", "group") == Absent
  {
    Sections(args, config);
    AppSectionKeys(args, OptProp(config, "app"));
  }

  lemma AppSectionKeys(args: Record, sec: JsVal)
    ensures AppSection(args, sec).fields.Keys ==
      {"verbose", "skipPS", "skipAD", "cachePath", "domain", "sendEmail", "attribute"}
  {
  }

  /** A file without a `server` section gives undefined server fields, not an error. */
  lemma {:induction false} MissingSectionIsUndefined()
    ensures Normalize(map[], Obj(map[])).Ok?
    ensures Out(Normalize(map[], Obj(map[])).value, "server", "id") == Absent
  {
    ServerOut(map[], Obj(map[]));
  }

  /** Falsy command-line values (`false`, `0`) still override the file. */
  lemma {:induction false} FalsyArgumentsOverride()
    ensures Out(Normalize(map["skip_ps" := Bool(false), "email_port" := Num(0)],
                Obj(map["app" := Obj(map["skip_ps" := Bool(true)]),
                        "email" := Obj(map["port" := Num(25)])])).value, "app", "skipPS") == Bool(false)
    ensures Out(Normalize(map["skip_ps" := Bool(false), "email_port" := Num(0)],
                Obj(map["app" := Obj(map["skip_ps" := Bool(true)]),
                        "email" := Obj(map["port" := Num(25)])])).value, "email", "port") == Num(0)
  {
    var args := map["skip_ps" := Bool(false), "email_port" := Num(0)];
    var config := Obj(map["app" := Obj(map["skip_ps" := Bool(true)]), "email" := Obj(map["port" := Num(25)])]);
    AppOut(args, config);
    EmailOut(args, config);
    assert Field(args, "skip_ps") == Bool(false);
    assert Field(args, "email_port") == Num(0);
  }

  /** `null` or missing file content is the error case. */
  lemma NullConfigFails()
    ensures Normalize(map[], Null).Err?
    ensures Normalize(map[], Absent).Err?
  {
  }
}
