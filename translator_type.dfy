/** The selector for the supported IDL translators
    (org.codehaus.mojo.idlj.TranslatorType): the configured compiler setting
    is matched exactly against each type's selector, in declaration order,
    and the first match creates the translator. */
module TranslatorTypes {
  import opened Common
  import opened JavaStrings

  /** The enum constants, in declaration order. */
  datatype TranslatorType = Default | BuiltIn | Glassfish | Jacorb

  /** The translators a type can create.  Glassfish and JacORB are opaque tags here. */
  datatype TranslatorKind = BuiltInTranslator | GlassfishTranslator | JacorbTranslator

  /** values(): the constants in declaration order. */
  function Values(): (types: seq<TranslatorType>)
  {
    [Default, BuiltIn, Glassfish, Jacorb]
  }

  /** values() lists every constant exactly once. */
  lemma ValuesComplete(t: TranslatorType)
    ensures |Values()| == 4
    ensures exists i :: 0 <= i < 4 && Values()[i] == t
    ensures forall i, j :: 0 <= i < j < 4 ==> Values()[i] != Values()[j]
  {
    match t
    case Default => assert Values()[0] == t;
    case BuiltIn => assert Values()[1] == t;
    case Glassfish => assert Values()[2] == t;
    case Jacorb => assert Values()[3] == t;
  }

  /** The string each type answers to. */
  function Selector(t: TranslatorType): (r: string) {
    match t
    case Default => "auto"
    case BuiltIn => "idlj"
    case Glassfish => "glassfish"
    case Jacorb => "jacorb"
  }

  /** select(setting): selector.equals(setting), so a null setting matches nothing. */
  predicate Select(t: TranslatorType, setting: Option<string>) {
    setting == Some(Selector(t))
  }

  /** isJavaModuleSystemPresent: any java.version that does not start with "1." */
  predicate IsJavaModuleSystemPresent(javaVersion: string) {
    !StartsWith(javaVersion, "1.")
  }

  /** createTranslator(): "auto" picks Glassfish when the module system is
      present and the JDK's built-in idlj otherwise. */
  function CreateTranslator(t: TranslatorType, javaVersion: string): (kind: TranslatorKind)
    ensures t == Default ==> (kind == GlassfishTranslator <==> IsJavaModuleSystemPresent(javaVersion))
    ensures t == Default ==> (kind == BuiltInTranslator <==> !IsJavaModuleSystemPresent(javaVersion))
  {
    match t
    case Default => if IsJavaModuleSystemPresent(javaVersion) then GlassfishTranslator else BuiltInTranslator
    case BuiltIn => BuiltInTranslator
    case Glassfish => GlassfishTranslator
    case Jacorb => JacorbTranslator
  }

  /** The first type in `types` whose selector matches the setting. */
  function FirstMatch(types: seq<TranslatorType>, setting: Option<string>): (r: Option<nat>)
    ensures r.Some? ==> r.value < |types| && Select(types[r.value], setting)
    ensures r.Some? ==> forall j :: 0 <= j < r.value ==> !Select(types[j], setting)
    ensures r.None? ==> forall j :: 0 <= j < |types| ==> !Select(types[j], setting)
    decreases |types|
  {
    if types == [] then None
    else if Select(types[0], setting) then Some(0)
    else
      match FirstMatch(types[1..], setting)
      case None => None
      case Some(j) => Some(j + 1)
  }

  /** How a null compiler setting prints in the error message. */
  function SettingText(setting: Option<string>): (r: string) {
    match setting
    case None => "null"
    case Some(s) => s
  }

  /** The message raised when no type matches. */
  function UnsupportedMessage(setting: Option<string>): (r: string) {
    "Compiler not supported: " + SettingText(setting)
  }

  /** selectTranslator(compiler), as a value. */
  function Selection(compiler: Option<string>, javaVersion: string): (r: Result<TranslatorKind>) {
    match FirstMatch(Values(), compiler)
    case None => Failure(MojoExecution(UnsupportedMessage(compiler)))
    case Some(i) => Success(CreateTranslator(Values()[i], javaVersion))
  }

  /** selectTranslator(compiler): the loop over values() that returns at the
      first match and throws once it has run out of types. */
  method SelectTranslator(compiler: Option<string>, javaVersion: string) returns (r: Result<TranslatorKind>)
    ensures r == Selection(compiler, javaVersion)
  {
    var types := Values();
    for i := 0 to |types|
      invariant forall j :: 0 <= j < i ==> !Select(types[j], compiler)
    {
      if Select(types[i], compiler) {
        r := Success(CreateTranslator(types[i], javaVersion));
        return;
      }
    }
    r := Failure(MojoExecution(UnsupportedMessage(compiler)));
  }

  /** No two types share a selector, so at most one type matches any setting
      and the order of the search does not decide the outcome. */
  lemma SelectorsDistinct(a: TranslatorType, b: TranslatorType, setting: Option<string>)
    ensures Selector(a) == Selector(b) ==> a == b
    ensures Select(a, setting) && Select(b, setting) ==> a == b
  {
  }

  /** The whole selection table: the four selectors and nothing else are
      accepted, exactly and case-sensitively; "auto" resolves on java.version;
      anything else (null included) fails naming the setting. */
  lemma SelectionTable(compiler: Option<string>, javaVersion: string)
    ensures compiler == Some("idlj") ==> Selection(compiler, javaVersion) == Success(BuiltInTranslator)
    ensures compiler == Some("glassfish") ==> Selection(compiler, javaVersion) == Success(GlassfishTranslator)
    ensures compiler == Some("jacorb") ==> Selection(compiler, javaVersion) == Success(JacorbTranslator)
    ensures compiler == Some("auto") ==>
      Selection(compiler, javaVersion)
        == Success(if StartsWith(javaVersion, "1.") then BuiltInTranslator else GlassfishTranslator)
    ensures Selection(compiler, javaVersion).Success? <==>
      compiler.Some? && compiler.value in {"auto", "idlj", "glassfish", "jacorb"}
    ensures Selection(compiler, javaVersion).Failure? ==>
      Selection(compiler, javaVersion).error == MojoExecution("Compiler not supported: " + SettingText(compiler))
  {
  }

  /** selectTranslator rejects an unknown setting, and also a null setting
      passed to it directly, each with the setting in the message. */
  lemma UnknownCompilerRejected(javaVersion: string)
    ensures Selection(Some("unknown"), javaVersion) == Failure(MojoExecution("Compiler not supported: unknown"))
    ensures Selection(None, javaVersion) == Failure(MojoExecution("Compiler not supported: null"))
  {
    SelectionTable(Some("unknown"), javaVersion);
    SelectionTable(None, javaVersion);
  }
}
