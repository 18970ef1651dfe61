/**
  The exceptions the workflow core raises. Every one of them is an
  `AttributeError` in the source except where noted; the constructor names
  the condition, so that contracts can say which check fired.
 */
module Errors {

  datatype Error =
    | UnknownWorkflowArgument   // Workflow.__init__: an option outside the workflow allow-list
    | UnknownTaskArgument       // Task.__init__ / newTask: an option outside the task allow-list
    | TaskAlreadyExists         // addTask: the (possibly minted) name is taken
    | DependencyNotFulfilled    // addTask: an edge names no attached task
    | ArgumentNotString         // addDependency: `argument` is not a str (None included)
    | TargetNotTask             // addDependency: `task` is not a Task object
    | NameNotString             // newSubWorkflow: `name` is not a str (None included)
    | WrongWorkflow             // newSubWorkflow: the template has the host's name
    | DependencyNotDict         // dependency_check: the descriptor is not a dict
    | WrongDependencyArguments  // dependency_check: wrong key set
    | MalformedArgument         // IndexError of `a.split("=")[1]` on an argument without '='
    | FileNameNotString         // save: the file name is not a str
    | FileNameEmpty             // save: the file name is empty
    | FileNotFound              // load: IOError, no such file
    | InvalidJson               // load: ValueError, content is not JSON
    | WorkflowWithoutName       // load: the document has no "name"
    | NotSubscriptable          // TypeError of `t["name"]` on a Task object (getTask as written)
}
