/** The process-wide state the translators read and rewrite: the system
    properties they consult and the class loader they resolve the compiler
    with.  Loading a class is an oracle: a name is Faulty (loading raises an
    exception other than ClassNotFoundException), Loaded, or NotFound. */
module JvmState {
  import opened JavaStrings

  datatype LoadResult = Loaded | NotFound | Faulty

  /** What a class loader that can see the classes in `loadable` does with `name`. */
  function LoadIn(loadable: set<string>, faulty: set<string>, name: string): (r: LoadResult)
    ensures r == Loaded <==> name !in faulty && name in loadable
    ensures r == NotFound <==> name !in faulty && name !in loadable
  {
    if name in faulty then Faulty
    else if name in loadable then Loaded
    else NotFound
  }

  /** new File(javaHome, "../lib/tools.jar").getAbsolutePath(), for an absolute java.home. */
  function ToolsJarPath(javaHome: string): (r: string) {
    javaHome + "/../lib/tools.jar"
  }

  /** The URL of that file. */
  function ToolsJarUrl(javaHome: string): (r: string) {
    "file:" + ToolsJarPath(javaHome)
  }

  /** java.class.path after the tools.jar fallback appended the jar to it. */
  function ExtendedClassPath(classPath: string, pathSeparator: string, javaHome: string): (r: string)
    ensures StartsWith(r, classPath)
    ensures r[|classPath|..] == pathSeparator + ToolsJarPath(javaHome)
  {
    classPath + pathSeparator + ToolsJarPath(javaHome)
  }

  /** The class HotSpot's idlj needs preloaded once tools.jar is on the path. */
  const FILE_LOCATOR := "com.sun.tools.corba.se.idl.som.cff.FileLocator"

  class Jvm {
    /** java.vm.vendor */
    const vendor: string
    /** java.vm.name */
    const vmName: string
    /** java.specification.version */
    const specificationVersion: string
    /** java.home */
    const javaHome: string
    /** path.separator */
    const pathSeparator: string
    /** The classes that <java.home>/../lib/tools.jar provides. */
    const toolsJarClasses: set<string>
    /** The classes whose loading raises something other than ClassNotFoundException. */
    const faulty: set<string>

    /** java.class.path, which the tools.jar fallback rewrites. */
    var classPath: string
    /** The URLs prepended to the plugin's class-loader facade, newest first. */
    var loaderUrls: seq<string>
    /** The classes the plugin's class loader can resolve. */
    var loadable: set<string>

    constructor (vendor: string, vmName: string, specificationVersion: string,
                 javaHome: string, pathSeparator: string, toolsJarClasses: set<string>,
                 faulty: set<string>, classPath: string, loadable: set<string>)
      ensures this.vendor == vendor && this.vmName == vmName
      ensures this.specificationVersion == specificationVersion && this.javaHome == javaHome
      ensures this.pathSeparator == pathSeparator && this.toolsJarClasses == toolsJarClasses
      ensures this.faulty == faulty && this.classPath == classPath
      ensures this.loaderUrls == [] && this.loadable == loadable
    {
      this.vendor := vendor;
      this.vmName := vmName;
      this.specificationVersion := specificationVersion;
      this.javaHome := javaHome;
      this.pathSeparator := pathSeparator;
      this.toolsJarClasses := toolsJarClasses;
      this.faulty := faulty;
      this.classPath := classPath;
      this.loaderUrls := [];
      this.loadable := loadable;
    }

    /** The plugin's own class loader. */
    function Load(name: string): (r: LoadResult)
      reads this
    {
      LoadIn(loadable, faulty, name)
    }

    /** A URLClassLoader over tools.jar whose parent is the plugin's loader. */
    function LoadWithToolsJar(name: string): (r: LoadResult)
      reads this
    {
      LoadIn(loadable + toolsJarClasses, faulty, name)
    }

    /** System.setProperty("java.class.path", old + path.separator + tools.jar). */
    method AppendToolsJarToClassPath()
      modifies this`classPath
      ensures classPath == ExtendedClassPath(old(classPath), pathSeparator, javaHome)
    {
      classPath := classPath + pathSeparator + ToolsJarPath(javaHome);
    }

    /** prependUrls on the class-loader facade: the jar's classes become loadable. */
    method PrependUrl(url: string, classes: set<string>)
      modifies this`loaderUrls, this`loadable
      ensures loaderUrls == [url] + old(loaderUrls)
      ensures loadable == old(loadable) + classes
    {
      loaderUrls := [url] + loaderUrls;
      loadable := loadable + classes;
    }
  }
}
