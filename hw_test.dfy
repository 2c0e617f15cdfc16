/**
 * tests/run_hw_test_if_available.py: choose the two serial ports for the hardware
 * test (from PORT_A and PORT_B when both are set, otherwise filling the missing ones
 * from the detected Nordic ports), skip when nothing is found, and pass on the exit
 * code of the test script. The environment, the detected ports and the test's exit
 * code are inputs.
 */
module HwTest {
  import opened Wrappers

  const TEST_SCRIPT := "test_driver_open_close.py"

  /** The environment variables the script reads; None for a variable that is not set. */
  datatype Env = Env(
    portA: Option<string>, portB: Option<string>,
    nrfFamily: Option<string>, iterations: Option<string>,
    logLevel: Option<string>, driverLogLevel: Option<string>)

  /** `os.getenv(name, default)`: the default only when the variable is not set at all. */
  function GetEnv(v: Option<string>, default: string): string {
    if v.Some? then v.value else default
  }

  /** A port counts as given when the variable is set and not empty (`if not port_a`). */
  predicate Given(v: Option<string>) {
    v.Some? && v.value != ""
  }

  /** Detection runs only when a port is missing. */
  predicate NeedsDetection(env: Env) {
    !Given(env.portA) || !Given(env.portB)
  }

  /**
   * The ports the test runs with, or None for the skip: a port that is given is
   * kept; a missing PORT_A becomes the first detected port; a missing PORT_B becomes
   * the second detected port, or the first when only one was detected.
   */
  function SelectPorts(env: Env, detected: seq<string>): Option<(string, string)> {
    if !NeedsDetection(env) then Some((env.portA.value, env.portB.value))
    else if detected == [] then None
    else
      var a := if Given(env.portA) then env.portA.value else detected[0];
      var b := if Given(env.portB) then env.portB.value
               else if |detected| > 1 then detected[1] else detected[0];
      Some((a, b))
  }

  /** The local reassignments of `main`, from the environment and the detected ports to the ports used. */
  method ChoosePorts(env: Env, detected: seq<string>) returns (skip: bool, portA: string, portB: string)
    ensures skip <==> SelectPorts(env, detected).None?
    ensures !skip ==> SelectPorts(env, detected) == Some((portA, portB))
  {
    var a := env.portA;
    var b := env.portB;
    skip, portA, portB := false, "", "";
    if !Given(a) || !Given(b) {
      var available := detected;
      if available == [] {
        return true, "", "";
      }
      if !Given(a) {
        a := Some(available[0]);
      }
      if !Given(b) {
        if |available| > 1 {
          b := Some(available[1]);
        } else {
          b := Some(available[0]);
        }
      }
    }
    portA, portB := a.value, b.value;
  }

  /** A port that is given is never replaced, whatever is detected. */
  lemma GivenPortsKept(env: Env, detected: seq<string>)
    ensures SelectPorts(env, detected).Some? && Given(env.portA) ==> SelectPorts(env, detected).value.0 == env.portA.value
    ensures SelectPorts(env, detected).Some? && Given(env.portB) ==> SelectPorts(env, detected).value.1 == env.portB.value
  {
  }

  /** With both ports given, the detected ports play no part. */
  lemma ExplicitPortsIgnoreDetection(env: Env, d1: seq<string>, d2: seq<string>)
    requires Given(env.portA) && Given(env.portB)
    ensures SelectPorts(env, d1) == SelectPorts(env, d2) == Some((env.portA.value, env.portB.value))
  {
  }

  /** The test is skipped exactly when a port is missing and no port is detected. */
  lemma SkipIff(env: Env, detected: seq<string>)
    ensures SelectPorts(env, detected).None? <==> NeedsDetection(env) && detected == []
  {
  }

  /**
   * Missing ports come from the detected list: PORT_A from the first, PORT_B from the
   * second when there are two or more and otherwise from the first as well.
   */
  lemma MissingPortsDetected(env: Env, detected: seq<string>)
    requires detected != []
    ensures SelectPorts(env, detected).Some?
    ensures !Given(env.portA) ==> SelectPorts(env, detected).value.0 == detected[0]
    ensures !Given(env.portB) ==> SelectPorts(env, detected).value.1 == (if |detected| >= 2 then detected[1] else detected[0])
  {
  }

  /** With one device and neither port given, both ports are that device. */
  lemma OneDeviceServesBoth(env: Env, port: string)
    requires !Given(env.portA) && !Given(env.portB)
    ensures SelectPorts(env, [port]) == Some((port, port))
  {
  }

  /** The command line of the hardware test, with the defaults for the variables that are not set. */
  function TestCommand(python: string, script: string, env: Env, portA: string, portB: string): (cmd: seq<string>) {
    [ python, script,
      "--port-a", portA,
      "--port-b", portB,
      "--nrf-family", GetEnv(env.nrfFamily, "NRF52"),
      "--iterations", GetEnv(env.iterations, "1"),
      "--log-level", GetEnv(env.logLevel, "info"),
      "--driver-log-level", GetEnv(env.driverLogLevel, "info") ]
  }

  /** The command names the chosen ports and, for variables that are not set, the defaults NRF52, 1, info and info. */
  lemma TestCommandSays(python: string, script: string, env: Env, portA: string, portB: string)
    ensures var cmd := TestCommand(python, script, env, portA, portB);
            && |cmd| == 14 && cmd[0] == python && cmd[1] == script
            && cmd[2] == "--port-a" && cmd[3] == portA && cmd[4] == "--port-b" && cmd[5] == portB
            && cmd[7] == (if env.nrfFamily.None? then "NRF52" else env.nrfFamily.value)
            && cmd[9] == (if env.iterations.None? then "1" else env.iterations.value)
            && cmd[11] == (if env.logLevel.None? then "info" else env.logLevel.value)
            && cmd[13] == (if env.driverLogLevel.None? then "info" else env.driverLogLevel.value)
  {
  }

  /**
   * `main`: 0 for the skip; 1 when the test script is missing; otherwise the exit
   * code of the test, run with the chosen ports. `runTest` gives the exit code of a
   * command line.
   */
  method RunHwTest(env: Env, detected: seq<string>, python: string, scriptDir: string, existing: set<string>,
                   runTest: seq<string> -> int)
    returns (code: int)
    ensures SelectPorts(env, detected).None? ==> code == 0
    ensures SelectPorts(env, detected).Some? && scriptDir + "/" + TEST_SCRIPT !in existing ==> code == 1
    ensures SelectPorts(env, detected).Some? && scriptDir + "/" + TEST_SCRIPT in existing ==>
              var (a, b) := SelectPorts(env, detected).value;
              code == runTest(TestCommand(python, scriptDir + "/" + TEST_SCRIPT, env, a, b))
  {
    var skip, portA, portB := ChoosePorts(env, detected);
    if skip {
      return 0;
    }
    var testScript := scriptDir + "/" + TEST_SCRIPT;
    if testScript !in existing {
      return 1;
    }
    var cmd := TestCommand(python, testScript, env, portA, portB);
    code := runTest(cmd);
  }
}
