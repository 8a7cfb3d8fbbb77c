/**
  The three-step "add employee" wizard: step 1 collects the employee's
  details, step 2 a face photo (webcam capture or file upload), step 3
  reviews and saves. The saved form goes to the page's add handler.
*/
module AddEmployeeModal {
  import opened Common

  /** The wizard's form; `faceImage` is a data URL, or null before a photo is taken. */
  datatype FormData = FormData(
    employeeId: string,
    firstName: string,
    lastName: string,
    email: string,
    phone: string,
    department: string,
    role: string,
    startDate: string,
    faceImage: Option<string>)

  /** The text inputs of step 1. */
  datatype TextField = EmployeeId | FirstName | LastName | Email | Phone | Department | Role | StartDate

  const EmptyForm := FormData("", "", "", "", "", "", "", "", None)

  function Get(f: FormData, k: TextField): string
  {
    match k
    case EmployeeId => f.employeeId
    case FirstName => f.firstName
    case LastName => f.lastName
    case Email => f.email
    case Phone => f.phone
    case Department => f.department
    case Role => f.role
    case StartDate => f.startDate
  }

  /** `handleInputChange(field, value)`: that field takes the value, nothing else changes. */
  function SetField(f: FormData, k: TextField, v: string): (r: FormData)
    ensures Get(r, k) == v
    ensures forall g :: g != k ==> Get(r, g) == Get(f, g)
    ensures r.faceImage == f.faceImage
  {
    match k
    case EmployeeId => f.(employeeId := v)
    case FirstName => f.(firstName := v)
    case LastName => f.(lastName := v)
    case Email => f.(email := v)
    case Phone => f.(phone := v)
    case Department => f.(department := v)
    case Role => f.(role := v)
    case StartDate => f.(startDate := v)
  }

  /** The face image is set to a non-empty value (JavaScript truthiness). */
  predicate HasFace(f: FormData)
  {
    f.faceImage.Some? && f.faceImage.value != ""
  }

  /** `validateStep(step)`, reading the truthiness of the result. */
  predicate ValidateStep(f: FormData, step: int)
  {
    if step == 1 then
      f.employeeId != "" && f.firstName != "" && f.lastName != "" &&
      f.email != "" && f.department != "" && f.role != ""
    else if step == 2 then HasFace(f)
    else true
  }

  /** Every field but the phone and the start date is required. */
  predicate Required(k: TextField)
  {
    k != Phone && k != StartDate
  }

  /** Step 1 passes exactly when every required field is non-empty. */
  lemma Step1IffRequiredFilled(f: FormData)
    ensures ValidateStep(f, 1) <==> forall k :: Required(k) ==> Get(f, k) != ""
  {
    if !ValidateStep(f, 1) {
      var k :| k in [EmployeeId, FirstName, LastName, Email, Department, Role] && Get(f, k) == "";
      assert Required(k);
    }
  }

  /** The phone and the start date never decide whether a step passes. */
  lemma OptionalFieldsIrrelevant(f: FormData, k: TextField, v: string, step: int)
    requires !Required(k)
    ensures ValidateStep(SetField(f, k, v), step) == ValidateStep(f, step)
  {
    var r := SetField(f, k, v);
    forall g | Required(g) ensures Get(r, g) == Get(f, g) { }
    Step1IffRequiredFilled(f);
    Step1IffRequiredFilled(r);
  }

  /** Number of steps shown in the wizard's header. */
  const StepCount := 3

  /** The wizard's state. `closeCalls` counts the calls of the parent's `onClose`. */
  class AddEmployeeWizard {
    var currentStep: int
    var form: FormData
    var capturedImage: Option<string>
    var isWebcamActive: bool
    var isLoading: bool
    var closeCalls: nat

    /**
      The step stays within 1..3, a later step is reached only with the
      earlier steps valid, and the preview image is the form's face image.
    */
    predicate Valid()
      reads this
    {
      1 <= currentStep <= StepCount
      && (currentStep >= 2 ==> ValidateStep(form, 1))
      && (currentStep == 3 ==> ValidateStep(form, 2))
      && capturedImage == form.faceImage
    }

    constructor ()
      ensures Valid()
      ensures currentStep == 1 && form == EmptyForm && capturedImage == None
      ensures !isWebcamActive && !isLoading && closeCalls == 0
    {
      currentStep := 1;
      form := EmptyForm;
      capturedImage := None;
      isWebcamActive := false;
      isLoading := false;
      closeCalls := 0;
    }

    /** The text inputs exist on step 1 only. */
    method InputChange(k: TextField, v: string)
      requires Valid() && currentStep == 1
      modifies this`form
      ensures Valid()
      ensures form == SetField(old(form), k, v)
    {
      form := SetField(form, k, v);
    }

    /**
      `startWebcam` with the camera permission granted or not, as
      evidently intended: a granted camera becomes active. (As written the
      stream is attached only to a mounted video element, which exists
      only while the webcam is already active; see `WebcamAfterStart`.)
    */
    method StartWebcam(granted: bool)
      requires Valid()
      modifies this`isWebcamActive
      ensures Valid()
      ensures isWebcamActive == WebcamAfterStartFixed(old(isWebcamActive), granted)
    {
      if granted {
        isWebcamActive := true;
      }
    }

    method StopWebcam()
      requires Valid()
      modifies this`isWebcamActive
      ensures Valid() && !isWebcamActive
    {
      if isWebcamActive {
        isWebcamActive := false;
      }
    }

    /** `capturePhoto`: the frame becomes the preview and the face image; the webcam stops. */
    method CapturePhoto(image: string)
      requires Valid() && currentStep == 2 && isWebcamActive
      modifies this`form, this`capturedImage, this`isWebcamActive
      ensures Valid()
      ensures capturedImage == Some(image) && form == old(form).(faceImage := Some(image))
      ensures !isWebcamActive
    {
      capturedImage := Some(image);
      form := form.(faceImage := Some(image));
      isWebcamActive := false;
    }

    /** `handleFileUpload` once the file has been read as a data URL. */
    method UploadPhoto(image: string)
      requires Valid() && currentStep == 2
      modifies this`form, this`capturedImage
      ensures Valid()
      ensures capturedImage == Some(image) && form == old(form).(faceImage := Some(image))
    {
      capturedImage := Some(image);
      form := form.(faceImage := Some(image));
    }

    /** "Retake": the photo is cleared, so step 2 no longer passes. */
    method Retake()
      requires Valid() && currentStep == 2
      modifies this`form, this`capturedImage
      ensures Valid()
      ensures capturedImage == None && form == old(form).(faceImage := None)
      ensures !ValidateStep(form, 2)
    {
      capturedImage := None;
      form := form.(faceImage := None);
    }

    /** `handleNext`: offered below the last step; advances only when the current step passes. */
    method Next()
      requires Valid() && currentStep < StepCount
      modifies this`currentStep
      ensures Valid()
      ensures currentStep == if ValidateStep(form, old(currentStep)) then old(currentStep) + 1 else old(currentStep)
    {
      if ValidateStep(form, currentStep) {
        currentStep := currentStep + 1;
      }
    }

    /** `handlePrevious`: offered above the first step. */
    method Previous()
      requires Valid() && currentStep > 1
      modifies this`currentStep
      ensures Valid()
      ensures currentStep == old(currentStep) - 1
    {
      currentStep := currentStep - 1;
    }

    /** `handleClose`: webcam off, back to step 1 with an empty form, and `onClose` called. */
    method Close()
      requires Valid()
      modifies this`isWebcamActive, this`currentStep, this`form, this`capturedImage, this`closeCalls
      ensures Valid()
      ensures !isWebcamActive && currentStep == 1 && form == EmptyForm && capturedImage == None
      ensures closeCalls == old(closeCalls) + 1
    {
      StopWebcam();
      currentStep := 1;
      form := EmptyForm;
      capturedImage := None;
      closeCalls := closeCalls + 1;
    }

    /**
      `handleSave` on the last step: the form is handed to `onSave`; when
      that settles the wizard closes, when it throws the wizard stays as it
      was. Loading ends false either way. The handed-over form always
      passes steps 1 and 2.
    */
    method Save(saveSucceeds: bool) returns (saved: FormData)
      requires Valid() && currentStep == StepCount
      modifies this
      ensures Valid() && !isLoading
      ensures saved == old(form)
      ensures ValidateStep(saved, 1) && HasFace(saved)
      ensures saveSucceeds ==> currentStep == 1 && form == EmptyForm && capturedImage == None
                               && !isWebcamActive && closeCalls == old(closeCalls) + 1
      ensures !saveSucceeds ==> currentStep == old(currentStep) && form == old(form)
                                && capturedImage == old(capturedImage) && closeCalls == old(closeCalls)
                                && isWebcamActive == old(isWebcamActive)
    {
      isLoading := true;
      saved := form;
      if saveSucceeds {
        Close();
      }
      isLoading := false;
    }
  }

  /**
    Whether the webcam is active after `startWebcam`, as written: the
    stream is attached only when the video element is mounted, which is
    only while the webcam is already active.
  */
  function WebcamAfterStart(wasActive: bool, granted: bool): bool
  {
    if granted && wasActive then true else wasActive
  }

  /** As written, the "start webcam" button (shown while inactive) never starts the webcam. */
  lemma WebcamNeverStarts(granted: bool)
    ensures !WebcamAfterStart(false, granted)
  {
  }

  /** The intended behaviour: a granted camera becomes active. */
  function WebcamAfterStartFixed(wasActive: bool, granted: bool): (active: bool)
    ensures granted ==> active
    ensures !granted ==> active == wasActive
  {
    granted || wasActive
  }
}
